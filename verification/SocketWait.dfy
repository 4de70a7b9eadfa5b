/** The bounded socket wait. The interrupt probe, the clock and the socket are arbitrary
    functions of the pass number, so every environment is covered. */
module SocketWait {

  const MAX_SLICE := 1000
  const MAX_SPURIOUS := 64
  const UINT64_MAX: nat := 0xffff_ffff_ffff_ffff

  datatype Direction = Reading | Writing
  datatype Probe = Continue | Requested | ProbeError
  datatype Clock = ClockFailed | Now(ms: nat)
  datatype Socket = Woken(ready: set<Direction>) | Timeout | SocketFailed

  datatype Environment = Environment(probe: nat -> Probe, clock: nat -> Clock, socket: (nat, nat) -> Socket)

  datatype Deadline = Deadline(startedAt: nat, expiresAt: nat)

  datatype Request = Request(interest: set<Direction>, deadline: Deadline, maxSlice: nat)

  datatype Status = Ok | InvalidArgument | Overflow | ClockError | WaitError | InterruptError | RetryLimit

  datatype Outcome = Ready | DeadlineExpired | Interrupted | Failed

  datatype Result = Result(outcome: Outcome, ready: set<Direction>, remaining: nat, waitCount: nat, spuriousCount: nat)

  // ----- deadlines

  function InitAt(now: nat, duration: nat): (r: (Status, Deadline))
    requires now <= UINT64_MAX
    ensures r.0.Ok? <==> now + duration <= UINT64_MAX
    ensures r.0.Ok? ==> RemainingAt(r.1, now) == (Ok, duration, duration == 0)
    ensures !r.0.Ok? ==> r.0.Overflow?
  {
    if duration > UINT64_MAX - now then (Overflow, Deadline(0, 0)) else (Ok, Deadline(now, now + duration))
  }

  function RemainingAt(d: Deadline, now: nat): (r: (Status, nat, bool))
    ensures r.0.Ok? <==> d.startedAt <= d.expiresAt && d.startedAt <= now
    ensures r.0.Ok? ==> now + r.1 == (if now < d.expiresAt then d.expiresAt else now) && (r.2 <==> r.1 == 0)
  {
    if d.expiresAt < d.startedAt then (InvalidArgument, 0, false)
    else if now < d.startedAt then (ClockError, 0, false)
    else if now >= d.expiresAt then (Ok, 0, true)
    else (Ok, d.expiresAt - now, false)
  }

  // ----- what a pass sees, without the loop

  predicate RequestValid(q: Request) {
    q.interest != {} && 0 < q.maxSlice <= MAX_SLICE
  }

  function Slice(q: Request, now: nat): nat {
    if q.deadline.expiresAt <= now then 0
    else if q.deadline.expiresAt - now > q.maxSlice then q.maxSlice
    else q.deadline.expiresAt - now
  }

  function At(env: Environment, k: nat): nat {
    if env.clock(k).Now? then env.clock(k).ms else 0
  }

  function Answer(env: Environment, q: Request, k: nat): Socket {
    env.socket(k, Slice(q, At(env, k)))
  }

  predicate Spurious(env: Environment, q: Request, k: nat) {
    Answer(env, q, k).Woken? && Answer(env, q, k).ready * q.interest == {}
  }

  function SpuriousCount(env: Environment, q: Request, n: nat): (c: nat)
    ensures c <= n
  {
    if n == 0 then 0 else SpuriousCount(env, q, n - 1) + if Spurious(env, q, n - 1) then 1 else 0
  }

  /** The clock did not go back, and moved on if the pass before timed out. */
  predicate ClockSound(env: Environment, q: Request, k: nat) {
    && env.clock(k).Now?
    && (k > 0 ==> At(env, k) >= At(env, k - 1) + if Answer(env, q, k - 1).Timeout? then 1 else 0)
  }

  /** The pass gets as far as waiting on the socket. */
  predicate Waits(env: Environment, q: Request, k: nat) {
    && env.probe(k).Continue? && ClockSound(env, q, k)
    && q.deadline.startedAt <= At(env, k) < q.deadline.expiresAt
  }

  /** The pass decides nothing. */
  predicate Quiet(env: Environment, q: Request, k: nat) {
    && Waits(env, q, k)
    && (Answer(env, q, k).Timeout? || (Spurious(env, q, k) && SpuriousCount(env, q, k + 1) < MAX_SPURIOUS))
  }

  ghost predicate QuietUntil(env: Environment, q: Request, n: nat) {
    forall k: nat :: k < n ==> Quiet(env, q, k)
  }

  /** The verdict of a pass that is not quiet. */
  predicate Decides(env: Environment, q: Request, n: nat, s: Status, r: Result) {
    if env.probe(n).Requested? then s.Ok? && r.outcome.Interrupted?
    else if env.probe(n).ProbeError? then s.InterruptError? && r.outcome.Failed?
    else if !ClockSound(env, q, n) then s.ClockError? && r.outcome.Failed?
    else if !RemainingAt(q.deadline, At(env, n)).0.Ok? then s == RemainingAt(q.deadline, At(env, n)).0 && r.outcome.Failed?
    else if At(env, n) >= q.deadline.expiresAt then s.Ok? && r.outcome.DeadlineExpired? && r.remaining == 0
    else if Answer(env, q, n).SocketFailed? then s.WaitError? && r.outcome.Failed?
    else if Answer(env, q, n).Woken? && !Spurious(env, q, n) then
      s.Ok? && r.outcome.Ready? && r.ready == Answer(env, q, n).ready * q.interest
    else s.RetryLimit? && r.outcome.Failed? && SpuriousCount(env, q, n + 1) == MAX_SPURIOUS
  }

  // ----- the bound

  lemma {:induction false} QuietTakesTime(env: Environment, q: Request, n: nat)
    requires QuietUntil(env, q, n) && (n > 0 ==> ClockSound(env, q, n))
    ensures n > 0 ==> At(env, 0) + n - SpuriousCount(env, q, n) <= At(env, n)
    ensures n > 0 ==> SpuriousCount(env, q, n) < MAX_SPURIOUS
  {
    if n > 0 {
      assert Quiet(env, q, n - 1);
      QuietTakesTime(env, q, n - 1);
    }
  }

  /** However the environment behaves, the number of waits is bounded by the time that was left. */
  lemma WaitsBounded(env: Environment, q: Request, n: nat)
    requires QuietUntil(env, q, n)
    ensures n > 0 || Waits(env, q, 0) ==>
      n + (if Waits(env, q, n) then 1 else 0) <= q.deadline.expiresAt - At(env, 0) + MAX_SPURIOUS - 1
  {
    if Waits(env, q, n) {
      QuietTakesTime(env, q, n);
    } else if n > 0 {
      assert Quiet(env, q, n - 1);
      QuietTakesTime(env, q, n - 1);
    }
  }

  /** The bound is reached: 63 empty wakeups at one instant, then a timeout a millisecond. */
  function Slowest(duration: nat): (Environment, Request) {
    (Environment(_ => Continue,
                 (k: nat) => Now(if k < MAX_SPURIOUS - 1 then 0 else k - (MAX_SPURIOUS - 1)),
                 (k: nat, t: nat) => if k < MAX_SPURIOUS - 1 then Woken({}) else Timeout),
     Request({Reading}, Deadline(0, duration), MAX_SLICE))
  }

  lemma {:induction false} SlowestSpurious(duration: nat, n: nat)
    ensures var (env, q) := Slowest(duration);
            SpuriousCount(env, q, n) == if n < MAX_SPURIOUS - 1 then n else MAX_SPURIOUS - 1
  {
    if n > 0 { SlowestSpurious(duration, n - 1); }
  }

  lemma BoundIsReached(duration: nat)
    requires duration > 0
    ensures var (env, q) := Slowest(duration);
            && QuietUntil(env, q, duration + MAX_SPURIOUS - 1)
            && !Quiet(env, q, duration + MAX_SPURIOUS - 1)
            && q.deadline.expiresAt - At(env, 0) + MAX_SPURIOUS - 1 == duration + MAX_SPURIOUS - 1
  {
    var (env, q) := Slowest(duration);
    forall k: nat | k < duration + MAX_SPURIOUS - 1 ensures Quiet(env, q, k) {
      SlowestSpurious(duration, k + 1);
    }
  }

  // ----- the loop

  /** The probe, the clock and the deadline, in this order. */
  method BeforeWait(env: Environment, q: Request, pass: nat, previousNow: nat, havePreviousNow: bool, requireProgress: bool, r: Result)
    returns (decided: bool, s: Status, r': Result, timeout: nat)
    requires (havePreviousNow <==> pass > 0) && r.outcome.Failed? && r.ready == {}
    requires pass > 0 ==> previousNow == At(env, pass - 1) && (requireProgress <==> Answer(env, q, pass - 1).Timeout?)
    requires pass == 0 ==> !requireProgress
    ensures decided <==> !Waits(env, q, pass)
    ensures decided ==> Decides(env, q, pass, s, r') && !r'.outcome.Ready?
    ensures r' == r.(outcome := r'.outcome, remaining := r'.remaining)
    ensures !decided ==> r'.outcome.Failed? && timeout == Slice(q, At(env, pass))
  {
    decided, s, r', timeout := true, Ok, r, 0;
    if env.probe(pass).Requested? { r' := r.(outcome := Interrupted); return; }
    if !env.probe(pass).Continue? { s := InterruptError; return; }
    var reading := env.clock(pass);
    if !reading.Now? || (havePreviousNow && reading.ms < previousNow) || (requireProgress && reading.ms <= previousNow) {
      s := ClockError;
      return;
    }
    var (status, remaining, expired) := RemainingAt(q.deadline, reading.ms);
    if !status.Ok? { s := status; return; }
    r' := r.(remaining := remaining);
    if expired { r' := r'.(outcome := DeadlineExpired); return; }
    timeout := if remaining > q.maxSlice then q.maxSlice else remaining;
    decided := false;
  }

  method Execute(env: Environment, q: Request) returns (s: Status, r: Result, ghost passes: nat, timeouts: seq<nat>)
    ensures !RequestValid(q) ==> s.InvalidArgument? && timeouts == []
    // the first pass that is not quiet decides
    ensures RequestValid(q) ==> QuietUntil(env, q, passes) && !Quiet(env, q, passes) && Decides(env, q, passes, s, r)
    ensures RequestValid(q) ==> r.waitCount == |timeouts| == passes + if Waits(env, q, passes) then 1 else 0
    ensures RequestValid(q) && r.waitCount > 0 ==> r.waitCount <= q.deadline.expiresAt - At(env, 0) + MAX_SPURIOUS - 1
    ensures RequestValid(q) ==> forall k :: 0 <= k < |timeouts| ==>
      1 <= timeouts[k] <= q.maxSlice && At(env, k) + timeouts[k] <= q.deadline.expiresAt
    ensures r.outcome.Ready? ==> r.ready != {} && r.ready <= q.interest
    ensures !r.outcome.Ready? ==> r.ready == {}
  {
    passes, timeouts := 0, [];
    r := Result(Failed, {}, 0, 0, 0);
    if !RequestValid(q) { return InvalidArgument, r, passes, timeouts; }
    var pass, previousNow, havePreviousNow, requireProgress := 0, 0, false, false;
    while true
      invariant QuietUntil(env, q, pass) && pass == passes
      invariant havePreviousNow <==> pass > 0
      invariant pass > 0 ==> previousNow == At(env, pass - 1) && (requireProgress <==> Answer(env, q, pass - 1).Timeout?)
      invariant pass == 0 ==> !requireProgress
      invariant r.waitCount == |timeouts| == pass && r.spuriousCount == SpuriousCount(env, q, pass) < MAX_SPURIOUS
      invariant r.outcome.Failed? && r.ready == {}
      invariant forall k :: 0 <= k < |timeouts| ==>
        1 <= timeouts[k] <= q.maxSlice && At(env, k) + timeouts[k] <= q.deadline.expiresAt
      decreases if pass == 0 then 1 else 0,
                if pass == 0 then 0 else q.deadline.expiresAt - At(env, 0) + MAX_SPURIOUS - pass
    {
      WaitsBounded(env, q, pass);
      var decided, timeout;
      decided, s, r, timeout := BeforeWait(env, q, pass, previousNow, havePreviousNow, requireProgress, r);
      if decided { return; }
      previousNow, havePreviousNow, requireProgress := At(env, pass), true, false;
      var answer := env.socket(pass, timeout);
      timeouts := timeouts + [timeout];
      r := r.(waitCount := r.waitCount + 1);
      if answer.Woken? && answer.ready * q.interest != {} {
        r := r.(outcome := Ready, ready := answer.ready * q.interest);
        return Ok, r, passes, timeouts;
      }
      if answer.SocketFailed? { return WaitError, r, passes, timeouts; }
      if answer.Woken? {
        r := r.(spuriousCount := r.spuriousCount + 1);
        if r.spuriousCount >= MAX_SPURIOUS { return RetryLimit, r, passes, timeouts; }
      } else {
        requireProgress := true;
      }
      pass, passes := pass + 1, passes + 1;
    }
  }
}
