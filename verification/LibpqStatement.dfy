/** The statement phase machine over libpq. Every answer of libpq, of the clock and of the
    allocator is arbitrary. Ghost ledgers follow each result and each cancel handle from the
    call that returned it to the call that gave it back. */
module LibpqStatement {
  import opened Options

  const MAX_INTERNAL_POLLS := 8
  const MAX_DRAIN := 16
  const MAX_SLICE := 1000
  const UINT64_MAX: nat := 0xffff_ffff_ffff_ffff

  datatype Phase =
    | Created | PrepareFlush | PrepareWait | PrepareResult | DescribeFlush | DescribeWait | DescribeResult
    | Prepared | ExecuteFlush | ExecuteWait | ExecuteResult | FetchWait | RowReady | Complete
    | CancelPoll | CancelDrain | Failed

  datatype Operation = NoOperation | Prepare | Execute | Fetch | Cancel | OtherOperation

  datatype Status = Ok | InvalidArgument | InvalidState | Unsupported | OutOfMemory | LimitExceeded | BackendError | ControlSignal

  datatype Interest = Read | Write | ReadWrite
  datatype WaitPhase = WaitPrepare | WaitExecute | WaitFetch | WaitCancel | WaitOther
  datatype WaitRequest = WaitRequest(interest: Interest, phase: WaitPhase, maxSlice: nat)

  datatype PollResult = NoResult | Wait(wait: WaitRequest) | PollRow | PollComplete | PollFailed

  datatype ErrorClass = Connection | Sql | Schema | Metadata | Conversion | Memory | Config | Invariant | Timeout | CancelClass

  datatype ResultStatus = CommandOk | TuplesOk | SingleTuple | FatalError | OtherStatus
  datatype CancelAnswer = CancelActive | CancelReading | CancelWriting | CancelOk | CancelFailed

  // ----- the phases an operation runs in

  datatype Stage = Preparation | Execution | Fetching | Cancellation | Finished | Other

  function StageOf(p: Phase): Stage {
    if p.PrepareFlush? || p.PrepareWait? || p.PrepareResult? || p.DescribeFlush? || p.DescribeWait? || p.DescribeResult?
      then Preparation
    else if p.ExecuteFlush? || p.ExecuteWait? || p.ExecuteResult? then Execution
    else if p.FetchWait? then Fetching
    else if p.CancelPoll? || p.CancelDrain? then Cancellation
    else if p.Complete? then Finished
    else Other
  }

  /** How far an operation has got; it bounds the internal polls of one call. */
  function Rank(p: Phase): nat {
    match p
    case PrepareFlush => 0 case PrepareWait => 1 case PrepareResult => 2
    case DescribeFlush => 3 case DescribeWait => 4 case DescribeResult => 5
    case ExecuteFlush => 0 case ExecuteWait => 1 case ExecuteResult => 2
    case _ => 0
  }

  ghost predicate WaitIn(r: PollResult, phase: WaitPhase) {
    r.Wait? && r.wait.phase == phase && 0 < r.wait.maxSlice <= MAX_SLICE
  }

  /** What a successful poll reports, by the stage the call found. */
  ghost predicate Reported(singleRow: bool, stage: Stage, p': Phase, r: PollResult) {
    || (stage.Preparation? && WaitIn(r, WaitPrepare) && StageOf(p') == stage)
    || (stage.Preparation? && r.PollComplete? && p'.Prepared?)
    || (stage.Execution? && WaitIn(r, WaitExecute) && StageOf(p') == stage)
    || (stage.Execution? && r.PollComplete? && p' == if singleRow then FetchWait else Complete)
    || (stage.Fetching? && WaitIn(r, WaitFetch) && p'.FetchWait?)
    || (stage.Fetching? && r.PollRow? && p'.RowReady?)
    || (stage.Fetching? && r.PollComplete? && p'.Complete?)
    || (stage.Cancellation? && WaitIn(r, WaitCancel) && StageOf(p') == stage)
    || (stage.Cancellation? && r.PollComplete? && p'.Complete?)
    || (stage.Finished? && r.PollComplete? && p'.Complete?)
  }

  // ----- the conversation with the server

  /** All that is ever asked of a result. */
  datatype Answer = Answer(
    status: ResultStatus, fits: bool, captured: bool, rows: int, valuesOk: bool, countOk: bool, queryCancelled: bool)

  datatype Command = PrepareCommand | DescribeCommand | ExecuteCommand

  /** One call that sent a command, or one `get_result`: a result, or the end of results. */
  datatype Entry = Asked(command: Command) | Got(answer: Answer) | Ended

  /** A result that ends prepare (0), describe (1) or execute (2) well. */
  predicate Accepts(mode: nat, a: Answer) {
    && (a.status.CommandOk? || (mode == 2 && a.status.TuplesOk?))
    && (mode != 0 ==> a.fits) && (mode == 1 ==> a.captured)
  }

  predicate IsRow(a: Answer) { a.status.SingleTuple? && a.fits && a.rows == 1 && a.valuesOk }
  predicate IsLast(a: Answer) { a.status.TuplesOk? && a.fits && a.rows == 0 && a.countOk }

  /** At `at`: a command, one good result, the end. */
  ghost predicate Exchange(log: seq<Entry>, at: nat, command: Command, mode: nat) {
    && at + 3 <= |log| && log[at] == Asked(command)
    && log[at + 1].Got? && Accepts(mode, log[at + 1].answer) && log[at + 2].Ended?
  }

  function PreparedSize(prepare: bool): nat { if prepare then 6 else 0 }

  ghost predicate PreparedWell(prepare: bool, log: seq<Entry>) {
    && PreparedSize(prepare) <= |log|
    && (prepare ==> Exchange(log, 0, PrepareCommand, 0) && Exchange(log, 3, DescribeCommand, 1))
  }

  /** Prepared if need be, and execution was asked for. */
  ghost predicate Executed(prepare: bool, log: seq<Entry>) {
    PreparedWell(prepare, log) && PreparedSize(prepare) < |log| && log[PreparedSize(prepare)] == Asked(ExecuteCommand)
  }

  /** `n` rows from `from` on, and nothing else. */
  ghost predicate RowsAt(log: seq<Entry>, from: nat, n: nat) {
    from + n <= |log| && forall i :: from <= i < from + n ==> log[i].Got? && IsRow(log[i].answer)
  }

  /** The conversation an uncancelled statement has had, by its phase. */
  ghost predicate LogFits(p: Phase, prepare: bool, singleRow: bool, rows: nat, log: seq<Entry>) {
    var start := PreparedSize(prepare);
    && (p.Created? ==> log == [])
    && (p.PrepareFlush? || p.PrepareWait? || p.PrepareResult? ==> log == [Asked(PrepareCommand)])
    && (p.DescribeFlush? || p.DescribeWait? || p.DescribeResult? ==>
          |log| == 4 && Exchange(log, 0, PrepareCommand, 0) && log[3] == Asked(DescribeCommand))
    && (p.Prepared? ==> prepare && |log| == 6 && PreparedWell(prepare, log))
    && (StageOf(p).Execution? ==> |log| == start + 1 && Executed(prepare, log))
    && (p.FetchWait? || p.RowReady? ==> |log| == start + 1 + rows && Executed(prepare, log) && RowsAt(log, start + 1, rows))
    && (p.Complete? && singleRow ==>
          && |log| == start + rows + 3 && Executed(prepare, log) && RowsAt(log, start + 1, rows)
          && log[start + rows + 1].Got? && IsLast(log[start + rows + 1].answer) && log[start + rows + 2].Ended?)
    && (p.Complete? && !singleRow ==>
          |log| == start + 3 && PreparedWell(prepare, log) && Exchange(log, start, ExecuteCommand, 2))
    && (p.Created? || StageOf(p).Preparation? || p.Prepared? || StageOf(p).Execution? ==> rows == 0)
    && (StageOf(p).Preparation? ==> prepare)
  }

  /** A row, or the last result and the end, after the rows so far. */
  lemma LogGrows(prepare: bool, rows: nat, log: seq<Entry>, a: Answer)
    requires LogFits(FetchWait, prepare, true, rows, log)
    ensures IsRow(a) ==> LogFits(RowReady, prepare, true, rows + 1, log + [Got(a)])
    ensures IsLast(a) ==> LogFits(Complete, prepare, true, rows, log + [Got(a)] + [Ended])
  {
  }

  /** A cancelled statement is complete once the results ended after one that shows how the
      cancelled command ended. */
  predicate ShowsEnd(e: Entry) {
    e.Got? && ((e.answer.status.FatalError? && e.answer.queryCancelled) || e.answer.status.TuplesOk?)
  }

  ghost predicate EndShown(log: seq<Entry>, from: nat) {
    exists i :: from <= i < |log| && ShowsEnd(log[i])
  }

  class Statement {
    const prepare: bool
    const singleRow: bool
    const fieldCount: nat
    const waitSlice: nat
    var phase: Phase
    var currentResult: Option<nat>
    var cancelConnection: Option<nat>
    var connectionReady: bool
    var deadlineStarted: bool
    var waitInterest: Interest
    var waitPhase: WaitPhase
    var cancelSqlstateSeen: bool
    var cancelTerminalSeen: bool
    var publishedRows: nat
    // ledgers: handles are numbered as they are returned
    var obtained: nat
    ghost var cleared: nat
    ghost var live: set<nat>
    var cancelsCreated: nat
    ghost var cancelsFinished: nat
    ghost var cancelsLive: set<nat>
    /** Every command sent and every answer of `get_result`; only SendCommand and GetResult write it. */
    ghost var log: seq<Entry>
    /** Where in the log a cancellation began. */
    ghost var cancelledAt: Option<nat>

    ghost predicate Ledgers()
      reads this
    {
      && obtained == cleared + |live| && (forall x :: x in live ==> x < obtained)
      && cancelsCreated == cancelsFinished + |cancelsLive| && (forall x :: x in cancelsLive ==> x < cancelsCreated)
      && cancelsLive == (if cancelConnection.Some? then {cancelConnection.value} else {})
    }

    ghost predicate Held()
      reads this
    {
      live == if currentResult.Some? then {currentResult.value} else {}
    }

    ghost predicate Valid()
      reads this
    {
      && Ledgers() && Held() && 0 < waitSlice <= MAX_SLICE
      && (currentResult.Some? ==> phase.RowReady? || phase.Failed?)
      && (phase.RowReady? ==> currentResult.Some?)
      && (cancelConnection.Some? <==> phase.CancelPoll?)
      && (singleRow ==> !phase.ExecuteWait? && !phase.ExecuteResult?)
      && (phase.FetchWait? || phase.RowReady? ==> singleRow)
      && (StageOf(phase).Cancellation? ==> cancelledAt.Some?)
      && (cancelledAt.None? ==> phase.Failed? || LogFits(phase, prepare, singleRow, publishedRows, log))
      && (cancelledAt.Some? ==> CancelFits(phase, cancelledAt.value))
    }

    ghost predicate CancelFits(p: Phase, from: nat)
      reads this
    {
      && (StageOf(p).Cancellation? || p.Complete? || p.Failed?) && from <= |log|
      && (StageOf(p).Cancellation? && (cancelSqlstateSeen || cancelTerminalSeen) ==> EndShown(log, from))
      && (p.Complete? ==> EndShown(log, from) && log[|log| - 1].Ended?)
    }

    constructor (prepare: bool, singleRow: bool, fieldCount: nat, waitSlice: nat)
      requires 0 < waitSlice <= MAX_SLICE
      ensures Valid() && phase.Created? && connectionReady && obtained == 0 && cancelsCreated == 0
      ensures this.prepare == prepare && this.singleRow == singleRow && this.fieldCount == fieldCount
    {
      this.prepare, this.singleRow, this.fieldCount, this.waitSlice := prepare, singleRow, fieldCount, waitSlice;
      phase, currentResult, cancelConnection, connectionReady := Created, None, None, true;
      deadlineStarted, waitInterest, waitPhase := false, Read, WaitOther;
      cancelSqlstateSeen, cancelTerminalSeen, publishedRows := false, false, 0;
      obtained, cleared, live, cancelsCreated, cancelsFinished, cancelsLive := 0, 0, {}, 0, 0, {};
      log, cancelledAt := [], None;
    }

    // ----- libpq calls that hand out or take back a handle

    /** A result, with all it will say of itself, or none: the end of results. */
    method GetResult() returns (r: Option<nat>, answer: Answer)
      requires Ledgers()
      modifies `obtained, `live, `log
      ensures Ledgers()
      ensures r.None? ==> live == old(live) && log == old(log) + [Ended]
      ensures r.Some? ==> r.value !in old(live) && live == old(live) + {r.value} && log == old(log) + [Got(answer)]
    {
      var some: bool, said: Answer := *, *;
      answer := said;
      if !some {
        log := log + [Ended];
        return None, answer;
      }
      log := log + [Got(answer)];
      r := Some(obtained);
      live := live + {obtained};
      obtained := obtained + 1;
    }

    method SendCommand(command: Command) returns (sent: bool)
      modifies `log
      ensures log == if sent then old(log) + [Asked(command)] else old(log)
    {
      sent := *;
      if sent { log := log + [Asked(command)]; }
    }

    method ClearResult(r: nat)
      requires Ledgers() && r in live
      modifies `cleared, `live
      ensures Ledgers() && live == old(live) - {r}
    {
      live := live - {r};
      cleared := cleared + 1;
    }

    method FinishCancel()
      requires Ledgers()
      modifies `cancelConnection, `cancelsFinished, `cancelsLive
      ensures Ledgers() && cancelConnection.None?
    {
      if cancelConnection.Some? {
        cancelsLive := {};
        cancelsFinished := cancelsFinished + 1;
        cancelConnection := None;
      }
    }

    /** Every error path: the cancel handle goes, the statement has failed. */
    method Error(class_: ErrorClass) returns (status: Status)
      requires Ledgers()
      modifies `phase, `connectionReady, `cancelConnection, `cancelsFinished, `cancelsLive
      ensures Ledgers() && phase.Failed? && cancelConnection.None? && connectionReady == class_.Sql?
      ensures status.OutOfMemory? || status.LimitExceeded? || status.BackendError?
    {
      FinishCancel();
      phase := Failed;
      connectionReady := class_.Sql?;
      var recorded: bool := *;
      status := if !recorded || class_.Memory? then OutOfMemory else if class_.Config? then LimitExceeded else BackendError;
    }

    method CheckDeadline() returns (status: Status)
      requires Valid()
      modifies `phase, `connectionReady, `cancelConnection, `cancelsFinished, `cancelsLive
      ensures Valid()
      ensures status.Ok? ==> phase == old(phase) && connectionReady == old(connectionReady) && deadlineStarted
      ensures !status.Ok? ==> phase.Failed? && !connectionReady
    {
      var clockOk: bool, expired: bool := *, *;
      if !deadlineStarted || !clockOk { status := Error(Connection); return; }
      if expired { status := Error(Timeout); return; }
      status := Ok;
    }

    /** After a server error: the remaining results are fetched and cleared, at most sixteen. */
    method DrainResults()
      requires Ledgers() && live == {}
      modifies `obtained, `live, `cleared, `log, `connectionReady
      ensures Ledgers() && live == {}
    {
      for count := 0 to MAX_DRAIN
        invariant Ledgers() && live == {}
      {
        var r, _ := GetResult();
        if r.None? { return; }
        ClearResult(r.value);
      }
      connectionReady := false;
    }

    // ----- start

    method CreateCancel()
      requires Ledgers() && cancelConnection.None?
      modifies `cancelConnection, `cancelsCreated, `cancelsLive
      ensures Ledgers()
    {
      var created: bool := *;
      if created {
        cancelConnection := Some(cancelsCreated);
        cancelsLive := {cancelsCreated};
        cancelsCreated := cancelsCreated + 1;
      }
    }

    method OpenCancel() returns (status: Status)
      requires Ledgers() && currentResult.None? && live == {} && cancelConnection.None?
      modifies this
      ensures Ledgers() && currentResult.None? && live == {} && cancelledAt == old(cancelledAt) && log == old(log)
      ensures status.Ok? ==> !cancelSqlstateSeen && !cancelTerminalSeen
      ensures if status.Ok? then phase.CancelPoll? && cancelConnection.Some? else phase.Failed? && cancelConnection.None?
      ensures !status.InvalidState?
    {
      var clockOk: bool, started: bool := *, *;
      if !clockOk { status := Error(Connection); return; }
      deadlineStarted := true;
      CreateCancel();
      if cancelConnection.None? || !started { status := Error(Connection); return; }
      cancelSqlstateSeen, cancelTerminalSeen := false, false;
      phase := CancelPoll;
      status := Ok;
    }

    method StartCancel() returns (status: Status)
      requires Valid()
      modifies this
      ensures Valid()
      ensures status.InvalidState? <==> !Cancellable(old(phase))
      ensures if status.Ok? then phase.CancelPoll? else status.InvalidState? || phase.Failed?
      ensures status.InvalidState? ==> phase == old(phase)
    {
      if !Cancellable(phase) { return InvalidState; }
      if currentResult.Some? { ReleaseHeld(); }
      cancelledAt := Some(|log|);
      status := OpenCancel();
    }

    method Start(operation: Operation) returns (status: Status)
      requires Valid()
      modifies this
      ensures Valid()
      ensures !old(connectionReady) ==> status.InvalidState? && phase == old(phase) && !connectionReady
      ensures status.Ok? && operation.Prepare? ==> old(phase).Created? && prepare && phase.PrepareFlush?
      ensures status.Ok? && operation.Execute? ==>
        old(phase) == (if prepare then Prepared else Created) && phase.ExecuteFlush?
      ensures status.Ok? && operation.Fetch? ==>
        phase == old(phase) == if singleRow then FetchWait else Complete
      ensures status.Ok? && operation.Cancel? ==> phase.CancelPoll?
      ensures operation.NoOperation? || operation.OtherOperation? ==> !status.Ok?
    {
      if !connectionReady { return InvalidState; }
      if operation.Prepare? {
        if !prepare || !phase.Created? { return InvalidState; }
      } else if operation.Execute? {
        if (prepare && !phase.Prepared?) || (!prepare && !phase.Created?) { return InvalidState; }
      } else if operation.Fetch? {
        if !singleRow && phase.Complete? { return Ok; }
        return if !singleRow || !phase.FetchWait? then InvalidState else Ok;
      } else if operation.Cancel? {
        status := StartCancel();
        return;
      } else {
        return Unsupported;
      }
      status := Send(operation);
    }

    /** The clock starts and the command goes out. */
    method Send(operation: Operation) returns (status: Status)
      requires Valid() && (operation.Prepare? || operation.Execute?)
      requires phase == if operation.Execute? && prepare then Prepared else Created
      requires operation.Prepare? ==> prepare
      modifies `phase, `connectionReady, `cancelConnection, `cancelsFinished, `cancelsLive, `deadlineStarted, `log
      ensures Valid() && !status.InvalidState?
      ensures phase == if !status.Ok? then Failed else if operation.Prepare? then PrepareFlush else ExecuteFlush
    {
      var clockOk: bool, singleRowSet: bool := *, *;
      if !clockOk { status := Error(Connection); return; }
      deadlineStarted := true;
      var sent := SendCommand(if operation.Prepare? then PrepareCommand else ExecuteCommand);
      phase := if operation.Prepare? then PrepareFlush else ExecuteFlush;
      if !sent || (operation.Execute? && singleRow && !singleRowSet) { status := Error(Connection); return; }
      status := Ok;
    }

    // ----- results

    method WaitResult(interest: Interest, waitFor: WaitPhase) returns (status: Status, r: PollResult)
      requires 0 < waitSlice <= MAX_SLICE && (phase.CancelPoll? ==> cancelConnection.Some?)
      modifies `waitInterest, `waitPhase
      ensures status.Ok? || status.BackendError?
      ensures status.Ok? ==> WaitIn(r, waitFor) && waitInterest == r.wait.interest && waitPhase == r.wait.phase
    {
      var socketOk: bool := *;
      if !socketOk { return BackendError, NoResult; }
      waitInterest, waitPhase := interest, waitFor;
      return Ok, Wait(WaitRequest(interest, waitFor, waitSlice));
    }

    /** The comparison of a result's fields with the description, or their capture. */
    method CheckMetadata(fits: bool) returns (status: Status)
      requires Ledgers()
      modifies `phase, `connectionReady, `cancelConnection, `cancelsFinished, `cancelsLive
      ensures Ledgers() && (status.Ok? <==> fits)
      ensures status.Ok? ==> phase == old(phase) && cancelConnection == old(cancelConnection)
                             && connectionReady == old(connectionReady)
      ensures !status.Ok? ==> phase.Failed? && cancelConnection.None?
    {
      var mismatch: ErrorClass := *;
      if fits { return Ok; }
      status := Error(if mismatch.Sql? then Schema else mismatch);
    }

    /** Takes the one result of a command and then demands the end of results. */
    method FinishResult(mode: nat) returns (status: Status)
      requires Ledgers() && live == {} && currentResult.None? && cancelConnection.None?
      modifies `phase, `connectionReady, `cancelConnection, `cancelsFinished, `cancelsLive
      modifies `currentResult, `obtained, `live, `cleared, `log
      ensures Ledgers() && live == {} && currentResult.None? && cancelConnection.None?
      ensures status.Ok? ==> phase == old(phase) && AnsweredWell(old(log), log, mode)
      ensures !status.Ok? ==> phase.Failed?
    {
      var answer;
      currentResult, answer := GetResult();
      if currentResult.None? { status := Error(Connection); return; }
      if (mode != 2 && !answer.status.CommandOk?) || (mode == 2 && !answer.status.TuplesOk? && !answer.status.CommandOk?) {
        status := Error(Sql);
        ReleaseHeld();
        DrainResults();
        return;
      }
      status := FinishAccepted(mode, answer);
    }

    /** The fields are compared and captured, then nothing more may come. */
    method FinishAccepted(mode: nat, answer: Answer) returns (status: Status)
      requires Ledgers() && Held() && currentResult.Some? && cancelConnection.None?
      modifies `phase, `connectionReady, `cancelConnection, `cancelsFinished, `cancelsLive
      modifies `currentResult, `obtained, `live, `cleared, `log
      ensures Ledgers() && live == {} && currentResult.None? && cancelConnection.None?
      ensures status.Ok? ==> phase == old(phase) && (mode != 0 ==> answer.fits) && (mode == 1 ==> answer.captured)
      ensures status.Ok? ==> log == old(log) + [Ended]
      ensures !status.Ok? ==> phase.Failed?
    {
      status := Ok;
      if mode != 0 { status := CheckMetadata(answer.fits); }
      if status.Ok? && mode == 1 { status := CheckMetadata(answer.captured); }
      ReleaseHeld();
      if status.Ok? { status := ExpectEnd(); }
    }

    /** The result must have been the last one. */
    method ExpectEnd() returns (status: Status)
      requires Ledgers() && live == {} && currentResult.None? && cancelConnection.None?
      modifies `phase, `connectionReady, `cancelConnection, `cancelsFinished, `cancelsLive
      modifies `currentResult, `obtained, `live, `cleared, `log
      ensures Ledgers() && live == {} && currentResult.None? && cancelConnection.None?
      ensures status.Ok? ==> phase == old(phase) && log == old(log) + [Ended]
      ensures !status.Ok? ==> phase.Failed?
    {
      var unread;
      currentResult, unread := GetResult();
      if currentResult.None? { return Ok; }
      ReleaseHeld();
      status := Error(Invariant);
    }

    method ReleaseHeld()
      requires Ledgers() && Held() && currentResult.Some?
      modifies `currentResult, `live, `cleared
      ensures Ledgers() && live == {} && currentResult.None?
    {
      ClearResult(currentResult.value);
      currentResult := None;
    }

    method FetchRow(answer: Answer) returns (status: Status, r: PollResult)
      requires Ledgers() && Held() && currentResult.Some? && cancelConnection.None? && phase.FetchWait?
      requires answer.status.SingleTuple?
      modifies this
      ensures Ledgers() && Held() && cancelConnection.None? && log == old(log) && cancelledAt == old(cancelledAt)
      ensures status.Ok? ==> r.PollRow? && phase.RowReady? && currentResult.Some? && publishedRows == old(publishedRows) + 1
      ensures status.Ok? ==> IsRow(answer)
      ensures !status.Ok? ==> phase.Failed? && currentResult.None?
    {
      r := NoResult;
      status := CheckMetadata(answer.fits);
      var bytesOk: bool := *;
      if !status.Ok? || answer.rows != 1 {
        ReleaseHeld();
        if status.Ok? { status := Error(Invariant); }
        return;
      }
      if !answer.valuesOk {
        ReleaseHeld();
        status := Error(Conversion);
        return;
      }
      if publishedRows == UINT64_MAX || !bytesOk {
        ReleaseHeld();
        status := Error(Config);
        return;
      }
      publishedRows := publishedRows + 1;
      phase := RowReady;
      return Ok, PollRow;
    }

    method FetchEnd(answer: Answer) returns (status: Status, r: PollResult)
      requires Ledgers() && Held() && currentResult.Some? && cancelConnection.None? && phase.FetchWait?
      requires answer.status.TuplesOk?
      modifies this
      ensures Ledgers() && Held() && cancelConnection.None? && currentResult.None? && cancelledAt == old(cancelledAt)
      ensures status.Ok? ==> r.PollComplete? && phase.Complete? && publishedRows == old(publishedRows)
      ensures status.Ok? ==> IsLast(answer) && log == old(log) + [Ended]
      ensures !status.Ok? ==> phase.Failed?
    {
      r := NoResult;
      status := CheckMetadata(answer.fits);
      ReleaseHeld();
      if !status.Ok? { return; }
      if !answer.countOk || answer.rows != 0 { status := Error(Invariant); return; }
      status := ExpectEnd();
      if !status.Ok? { return; }
      phase := Complete;
      r := PollComplete;
    }

    method FetchResult() returns (status: Status, r: PollResult)
      requires Valid() && phase.FetchWait?
      modifies this
      ensures Valid()
      ensures status.Ok? ==> (r.PollRow? && phase.RowReady?) || (r.PollComplete? && phase.Complete?)
      ensures !status.Ok? ==> phase.Failed?
    {
      r := NoResult;
      ghost var before := log;
      var answer;
      currentResult, answer := GetResult();
      if currentResult.None? { status := Error(Invariant); return; }
      status, r := FetchAnswer(answer, before);
    }

    /** A row, the end of the rows, or a late server error. */
    method FetchAnswer(answer: Answer, ghost before: seq<Entry>) returns (status: Status, r: PollResult)
      requires Ledgers() && Held() && currentResult.Some? && cancelConnection.None? && phase.FetchWait?
      requires 0 < waitSlice <= MAX_SLICE && singleRow && cancelledAt.None?
      requires LogFits(FetchWait, prepare, true, publishedRows, before) && log == before + [Got(answer)]
      modifies this
      ensures Valid()
      ensures status.Ok? ==> (r.PollRow? && phase.RowReady?) || (r.PollComplete? && phase.Complete?)
      ensures !status.Ok? ==> phase.Failed?
    {
      r := NoResult;
      LogGrows(prepare, publishedRows, before, answer);
      if answer.status.SingleTuple? {
        status, r := FetchRow(answer);
      } else if answer.status.TuplesOk? {
        status, r := FetchEnd(answer);
      } else {
        status := Error(Sql);
        ReleaseHeld();
        DrainResults();
      }
    }

    // ----- one internal poll; `more` says the loop goes on

    method StepCancelPoll() returns (more: bool, status: Status, r: PollResult)
      requires Valid() && phase.CancelPoll?
      modifies this
      ensures Valid()
      ensures more ==> StageOf(phase).Cancellation?
      ensures !more && status.Ok? ==> WaitIn(r, WaitCancel) && phase.CancelPoll? && waitInterest == r.wait.interest && waitPhase == WaitCancel
    {
      more, status, r := false, Ok, NoResult;
      var answer: CancelAnswer := *;
      if answer.CancelActive? { return true, Ok, NoResult; }
      if answer.CancelReading? || answer.CancelWriting? {
        status, r := WaitResult(if answer.CancelReading? then Read else Write, WaitCancel);
        return;
      }
      if !answer.CancelOk? { status := Error(CancelClass); return; }
      FinishCancel();
      phase := CancelDrain;
      more := true;
    }

    method StepCancelDrain() returns (more: bool, status: Status, r: PollResult)
      requires Valid() && phase.CancelDrain?
      modifies this
      ensures Valid()
      ensures more ==> StageOf(phase).Cancellation?
      ensures !more && status.Ok? && r.Wait? ==>
        WaitIn(r, WaitCancel) && phase.CancelDrain? && waitInterest == r.wait.interest && waitPhase == WaitCancel
      ensures !more && status.Ok? && !r.Wait? ==>
        r.PollComplete? && phase.Complete? && (old(cancelSqlstateSeen) || old(cancelTerminalSeen))
    {
      more, status, r := false, Ok, NoResult;
      var consumed: bool, busy: bool := *, *;
      if !consumed { status := Error(Connection); return; }
      if busy { status, r := WaitResult(Read, WaitCancel); return; }
      status, more, r := DrainOne();
    }

    /** One result of the cancelled command, or the end of them. */
    method DrainOne() returns (status: Status, more: bool, r: PollResult)
      requires Valid() && phase.CancelDrain?
      modifies this
      ensures Valid()
      ensures more ==> StageOf(phase).Cancellation?
      ensures !more && status.Ok? ==>
        r.PollComplete? && phase.Complete? && (old(cancelSqlstateSeen) || old(cancelTerminalSeen))
    {
      more, status, r := false, Ok, NoResult;
      ghost var before := log;
      var result, answer := GetResult();
      EndStaysShown(before, log, cancelledAt.value);
      if result.Some? {
        NoteEnd(answer);
        ClearResult(result.value);
        more := true;
      } else if !cancelSqlstateSeen && !cancelTerminalSeen {
        status := Error(Invariant);
      } else {
        phase := Complete;
        r := PollComplete;
      }
    }

    method NoteEnd(answer: Answer)
      modifies `cancelSqlstateSeen, `cancelTerminalSeen
      ensures cancelSqlstateSeen || cancelTerminalSeen <==>
        old(cancelSqlstateSeen) || old(cancelTerminalSeen) || ShowsEnd(Got(answer))
    {
      if answer.status.FatalError? {
        if answer.queryCancelled { cancelSqlstateSeen := true; }
      } else if answer.status.TuplesOk? {
        cancelTerminalSeen := true;
      }
    }

    method StepFlush() returns (more: bool, status: Status, r: PollResult)
      requires Valid() && (phase.PrepareFlush? || phase.DescribeFlush? || phase.ExecuteFlush?)
      modifies this
      ensures Valid()
      ensures more ==> Follows(old(phase), phase)
      ensures !more && status.Ok? ==> Reported(singleRow, StageOf(old(phase)), phase, r)
      ensures !more && status.Ok? && r.Wait? ==> waitInterest == r.wait.interest && waitPhase == r.wait.phase
    {
      more, status, r := false, Ok, NoResult;
      var flushed: int := *;
      if flushed < 0 { status := Error(Connection); return; }
      if flushed == 1 {
        status, r := WaitResult(Write, if phase.ExecuteFlush? then WaitExecute else WaitPrepare);
        return;
      }
      if phase.PrepareFlush? {
        phase := PrepareWait;
      } else if phase.DescribeFlush? {
        phase := DescribeWait;
      } else if singleRow {
        phase := FetchWait;
        r := PollComplete;
        return;
      } else {
        phase := ExecuteWait;
      }
      more := true;
    }

    method StepWait() returns (more: bool, status: Status, r: PollResult)
      requires Valid() && (phase.PrepareWait? || phase.DescribeWait? || phase.ExecuteWait?)
      modifies this
      ensures Valid()
      ensures more ==> Follows(old(phase), phase)
      ensures !more && status.Ok? ==> Reported(singleRow, StageOf(old(phase)), phase, r)
      ensures !more && status.Ok? && r.Wait? ==> waitInterest == r.wait.interest && waitPhase == r.wait.phase
    {
      more, status, r := false, Ok, NoResult;
      var consumed: bool, busy: bool := *, *;
      if !consumed { status := Error(Connection); return; }
      if busy {
        status, r := WaitResult(Read, if phase.ExecuteWait? then WaitExecute else WaitPrepare);
        return;
      }
      phase := if phase.PrepareWait? then PrepareResult else if phase.DescribeWait? then DescribeResult else ExecuteResult;
      more := true;
    }

    method StepResult() returns (more: bool, status: Status, r: PollResult)
      requires Valid() && (phase.PrepareResult? || phase.DescribeResult? || phase.ExecuteResult?)
      modifies this
      ensures Valid()
      ensures more ==> Follows(old(phase), phase)
      ensures !more && status.Ok? ==> Reported(singleRow, StageOf(old(phase)), phase, r) && !r.Wait?
    {
      more, r := false, NoResult;
      ghost var before := log;
      status := FinishResult(if phase.PrepareResult? then 0 else if phase.DescribeResult? then 1 else 2);
      if !status.Ok? { return; }
      more, status, r := Advance(before);
    }

    /** The next command, or the end of the operation. */
    method Advance(ghost before: seq<Entry>) returns (more: bool, status: Status, r: PollResult)
      requires Ledgers() && Held() && currentResult.None? && cancelConnection.None? && 0 < waitSlice <= MAX_SLICE
      requires phase.PrepareResult? || phase.DescribeResult? || (phase.ExecuteResult? && !singleRow)
      requires cancelledAt.None? && LogFits(phase, prepare, singleRow, publishedRows, before)
      requires AnsweredWell(before, log, if phase.PrepareResult? then 0 else if phase.DescribeResult? then 1 else 2)
      modifies `phase, `log, `connectionReady, `cancelConnection, `cancelsFinished, `cancelsLive
      ensures Valid()
      ensures more ==> Follows(old(phase), phase)
      ensures !more && status.Ok? ==> Reported(singleRow, StageOf(old(phase)), phase, r) && !r.Wait?
    {
      more, status, r := false, Ok, NoResult;
      if phase.PrepareResult? {
        var sent := SendCommand(DescribeCommand);
        if !sent { status := Error(Connection); return; }
        phase := DescribeFlush;
        more := true;
      } else {
        phase := if phase.DescribeResult? then Prepared else Complete;
        r := PollComplete;
      }
    }

    method StepFetch() returns (status: Status, r: PollResult)
      requires Valid() && phase.FetchWait?
      modifies this
      ensures Valid()
      ensures status.Ok? ==> Reported(singleRow, Fetching, phase, r)
      ensures status.Ok? && r.Wait? ==> waitInterest == r.wait.interest && waitPhase == r.wait.phase
    {
      r := NoResult;
      var consumed: bool, busy: bool := *, *;
      if !consumed { status := Error(Connection); return; }
      if busy { status, r := WaitResult(Read, WaitFetch); return; }
      status, r := FetchResult();
    }

    method Step() returns (more: bool, status: Status, r: PollResult)
      requires Valid()
      modifies this
      ensures Valid()
      ensures more ==> Follows(old(phase), phase)
      ensures !more && status.Ok? ==> Reported(singleRow, StageOf(old(phase)), phase, r)
      ensures !more && status.Ok? && r.Wait? ==> waitInterest == r.wait.interest && waitPhase == r.wait.phase
    {
      more := false;
      if phase.Complete? { return false, Ok, PollComplete; }
      if phase.CancelPoll? {
        more, status, r := StepCancelPoll();
      } else if phase.CancelDrain? {
        more, status, r := StepCancelDrain();
      } else if phase.PrepareFlush? || phase.DescribeFlush? || phase.ExecuteFlush? {
        more, status, r := StepFlush();
      } else if phase.FetchWait? {
        status, r := StepFetch();
      } else if phase.PrepareWait? || phase.DescribeWait? || phase.ExecuteWait? {
        more, status, r := StepWait();
      } else if phase.PrepareResult? || phase.DescribeResult? || phase.ExecuteResult? {
        more, status, r := StepResult();
      } else {
        status, r := InvalidState, NoResult;
      }
    }

    /** Polls until something is to be reported, at most eight times. */
    method Poll() returns (status: Status, r: PollResult)
      requires Valid()
      modifies this
      ensures Valid()
      ensures !old(connectionReady) ==> status.InvalidState? && phase == old(phase) && !connectionReady
      ensures status.Ok? ==> Reported(singleRow, StageOf(old(phase)), phase, r)
      ensures status.Ok? && r.Wait? ==> waitInterest == r.wait.interest && waitPhase == r.wait.phase
    {
      r := NoResult;
      if !connectionReady { return InvalidState, r; }
      status := CheckDeadline();
      if status.Ok? { status, r := PollOn(); }
    }

    /** The internal polls of one call. */
    method PollOn() returns (status: Status, r: PollResult)
      requires Valid()
      modifies this
      ensures Valid()
      ensures status.Ok? ==> Reported(singleRow, StageOf(old(phase)), phase, r)
      ensures status.Ok? && r.Wait? ==> waitInterest == r.wait.interest && waitPhase == r.wait.phase
    {
      r := NoResult;
      var internalPolls := 0;
      while true
        invariant Valid() && 0 <= internalPolls <= MAX_INTERNAL_POLLS
        invariant StageOf(phase) == StageOf(old(phase))
        // only a cancellation can use up the internal polls
        invariant StageOf(phase).Preparation? || StageOf(phase).Execution? ==> internalPolls <= Rank(phase)
        invariant internalPolls > 0 ==> Repeats(StageOf(phase))
        decreases MAX_INTERNAL_POLLS - internalPolls
      {
        internalPolls := internalPolls + 1;
        if internalPolls > MAX_INTERNAL_POLLS {
          status, r := WaitResult(ReadWrite, OverflowPhase(phase));
          return;
        }
        var more;
        more, status, r := StepInTime();
        if !more { return; }
      }
    }

    /** One internal poll followed by a look at the deadline. */
    method StepInTime() returns (more: bool, status: Status, r: PollResult)
      requires Valid()
      modifies this
      ensures Valid()
      ensures more ==> Follows(old(phase), phase)
      ensures !more && status.Ok? ==> Reported(singleRow, StageOf(old(phase)), phase, r)
      ensures !more && status.Ok? && r.Wait? ==> waitInterest == r.wait.interest && waitPhase == r.wait.phase
    {
      more, status, r := Step();
      if more {
        status := CheckDeadline();
        more := status.Ok?;
      }
    }

    /** A wait on exactly what the last poll asked for. */
    method WaitOn(request: WaitRequest) returns (status: Status)
      requires Valid()
      modifies this
      ensures Valid()
      ensures status.Ok? || status.ControlSignal? ==> phase == old(phase)
      ensures status.InvalidState? <==> !old(connectionReady) || request.interest != old(waitInterest) || request.phase != old(waitPhase)
      ensures status.InvalidState? ==> phase == old(phase) && connectionReady == old(connectionReady)
    {
      if !connectionReady || request.interest != waitInterest || request.phase != waitPhase { return InvalidState; }
      var ready: bool, controlled: bool, recorded: bool := *, *, *;
      if ready { return Ok; }
      if controlled { return if recorded then ControlSignal else OutOfMemory; }
      status := Error(Connection);
    }

    // ----- rows

    predicate RowHeld()
      reads this
    {
      phase.RowReady? && currentResult.Some?
    }

    method Row() returns (status: Status, columns: nat)
      ensures status.Ok? <==> RowHeld()
      ensures columns == if status.Ok? then fieldCount else 0
    {
      if !RowHeld() { return InvalidState, 0; }
      return Ok, fieldCount;
    }

    method RowRelease()
      requires Valid()
      modifies `phase, `currentResult, `live, `cleared
      ensures Valid()
      ensures phase == if old(RowHeld()) then FetchWait else old(phase)
    {
      if !RowHeld() { return; }
      ReleaseHeld();
      phase := FetchWait;
    }

    /** Everything obtained has been given back, once each. */
    method Destroy()
      requires Valid()
      modifies this
      ensures obtained == cleared && live == {} && cancelsCreated == cancelsFinished && cancelsLive == {}
      ensures connectionReady == (old(connectionReady)
                && old(phase.Created? || phase.Prepared? || phase.Complete? || phase.Failed?))
    {
      if currentResult.Some? { ReleaseHeld(); }
      FinishCancel();
      if !phase.Created? && !phase.Prepared? && !phase.Complete? && !phase.Failed? { connectionReady := false; }
    }
  }

  /** One good result and the end were added. */
  ghost predicate AnsweredWell(before: seq<Entry>, log: seq<Entry>, mode: nat) {
    && |log| == |before| + 2 && log[..|before|] == before
    && log[|before|].Got? && Accepts(mode, log[|before|].answer) && log[|before| + 1].Ended?
  }

  lemma EndStaysShown(before: seq<Entry>, log: seq<Entry>, from: nat)
    requires |log| == |before| + 1 && log[..|before|] == before && from <= |before|
    ensures EndShown(before, from) || ShowsEnd(log[|before|]) ==> EndShown(log, from)
  {
    if EndShown(before, from) {
      var i :| from <= i < |before| && ShowsEnd(before[i]);
      assert log[i] == before[i];
    }
  }

  predicate Cancellable(p: Phase) {
    !p.Created? && !p.Prepared? && !p.Complete? && !p.Failed? && !p.CancelPoll? && !p.CancelDrain?
  }

  function OverflowPhase(p: Phase): WaitPhase {
    if StageOf(p).Cancellation? then WaitCancel
    else if p.Created? || StageOf(p).Preparation? then WaitPrepare
    else WaitExecute
  }

  predicate Repeats(stage: Stage) {
    stage.Preparation? || stage.Execution? || stage.Cancellation?
  }

  /** One internal poll moves an operation one phase on, or lets a cancellation go round again. */
  ghost predicate Follows(p: Phase, p': Phase) {
    && StageOf(p) == StageOf(p') && Repeats(StageOf(p))
    && (!StageOf(p).Cancellation? ==> Rank(p') == Rank(p) + 1)
  }
}
