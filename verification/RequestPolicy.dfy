/**
 The circuit breaker and retry policy (RequestPolicy.cpp). Times are milliseconds of a
 monotonic clock. Every method holds the policy's lock, so each is one atomic step.
 */
module RequestPolicies {

  datatype Config = Config(maxConcurrent: nat, failureThreshold: int, openDuration: int,
                           maxReadRetries: int, initialBackoff: int, maxBackoff: int) {
    // The constructor raises limits that would make the policy useless.
    function Normalised(): (c: Config)
      ensures c.maxConcurrent >= 1 && c.failureThreshold >= 1 && c.maxReadRetries >= 0
    {
      this.(maxConcurrent := if maxConcurrent == 0 then 1 else maxConcurrent,
            failureThreshold := if failureThreshold < 1 then 1 else failureThreshold,
            maxReadRetries := if maxReadRetries < 0 then 0 else maxReadRetries)
    }
  }

  datatype Admission = Accepted | ConcurrencyLimit | CircuitOpen

  datatype Circuit = Closed | Open | HalfOpen

  // The policy as a value: what one locked call reads and leaves.
  datatype Policy = Policy(config: Config, active: nat, failures: nat, circuit: Circuit, openedAt: int, probe: bool) {

    function Decide(now: int): Admission {
      if circuit == Open && now - openedAt < config.openDuration then CircuitOpen
      else if circuit == HalfOpen && probe then CircuitOpen
      else if active >= config.maxConcurrent then ConcurrencyLimit
      else Accepted
    }

    // A circuit whose window has passed turns half-open even if the call is then turned away.
    function AfterAcquire(now: int): Policy {
      var p := if circuit == Open && now - openedAt >= config.openDuration then this.(circuit := HalfOpen) else this;
      if Decide(now) == Accepted then p.(active := active + 1, probe := if p.circuit == HalfOpen then true else p.probe) else p
    }

    function AfterRelease(): Policy {
      if active > 0 then this.(active := active - 1) else this
    }

    predicate Trips() {
      circuit == HalfOpen || failures + 1 >= config.failureThreshold
    }

    function AfterResult(success: bool, transient: bool, now: int): Policy {
      if success then this.(failures := 0, circuit := Closed, probe := false)
      else if !transient then
        if circuit == HalfOpen then this.(circuit := Closed, probe := false) else this
      else if Trips() then this.(failures := failures + 1, circuit := Open, openedAt := now, probe := false)
      else this.(failures := failures + 1)
    }

    predicate Sound() {
      && config == config.Normalised()
      && active <= config.maxConcurrent
      && (probe ==> circuit == HalfOpen)
      && (circuit != Closed ==> failures >= config.failureThreshold)
    }
  }

  function NewPolicy(config: Config): Policy {
    Policy(config.Normalised(), 0, 0, Closed, 0, false)
  }

  function Upper(c: char): char {
    if 'a' <= c <= 'z' then c - 32 as char else c
  }

  predicate IsReadOnlyMethod(httpMethod: string) {
    var upper := seq(|httpMethod|, i requires 0 <= i < |httpMethod| => Upper(httpMethod[i]));
    upper == "GET" || upper == "HEAD"
  }

  predicate IsTransientHttpStatus(status: int) {
    status == 408 || status == 425 || status == 429 || 500 <= status <= 599
  }

  function ShouldRetry(config: Config, readOnly: bool, completedAttempt: int, transportFailure: bool, status: int): bool {
    readOnly && completedAttempt < config.maxReadRetries && (transportFailure || IsTransientHttpStatus(status))
  }

  function Power(n: nat): (p: nat)
    ensures p >= 1
  {
    if n == 0 then 1 else 2 * Power(n - 1)
  }

  function BackoffFor(config: Config, completedAttempt: int): int {
    var shift := if completedAttempt < 0 then 0 else if completedAttempt > 20 then 20 else completedAttempt;
    var delay := config.initialBackoff * Power(shift);
    if delay < config.maxBackoff then delay else config.maxBackoff
  }

  /** Later attempts never wait less, and no attempt waits longer than the maximum. */
  lemma BackoffGrows(config: Config, a: int, b: int)
    requires a <= b && config.initialBackoff >= 0
    ensures BackoffFor(config, a) <= BackoffFor(config, b) <= config.maxBackoff
  {
    var s := if a < 0 then 0 else if a > 20 then 20 else a;
    var t := if b < 0 then 0 else if b > 20 then 20 else b;
    PowerGrows(s, t);
    ProductGrows(config.initialBackoff, Power(s), Power(t));
  }

  /**
   The wait starts at the initial backoff and doubles with each attempt, up to the maximum; after
   twenty doublings it stays.
   */
  lemma BackoffDoubles(config: Config, a: nat)
    requires config.initialBackoff >= 0 && config.maxBackoff >= 0
    ensures BackoffFor(config, 0) == if config.initialBackoff < config.maxBackoff then config.initialBackoff else config.maxBackoff
    ensures a < 20 ==>
              BackoffFor(config, a + 1) ==
              if 2 * BackoffFor(config, a) < config.maxBackoff then 2 * BackoffFor(config, a) else config.maxBackoff
    ensures a >= 20 ==> BackoffFor(config, a + 1) == BackoffFor(config, a)
  {
    if a < 20 {
      assert Power(a + 1) == 2 * Power(a);
      DoubledProduct(config.initialBackoff, Power(a));
    }
  }

  lemma DoubledProduct(k: int, p: int)
    ensures k * (2 * p) == 2 * (k * p)
  {
  }

  lemma ProductGrows(k: int, m: int, n: int)
    requires k >= 0 && m <= n
    ensures k * m <= k * n
  {
    assert k * (n - m) >= 0;
    assert k * (n - m) == k * n - k * m;
  }

  lemma {:induction false} PowerGrows(m: nat, n: nat)
    requires m <= n
    ensures Power(m) <= Power(n)
    decreases n - m
  {
    if m < n {
      PowerGrows(m + 1, n);
    }
  }

  /** The shared policy object; `View` is the value its fields hold. */
  class RequestPolicy {
    const config: Config
    var activeRequests: nat
    var consecutiveFailures: nat
    var circuit: Circuit
    var openedAt: int
    var halfOpenProbeActive: bool

    ghost function View(): Policy
      reads this
    {
      Policy(config, activeRequests, consecutiveFailures, circuit, openedAt, halfOpenProbeActive)
    }

    constructor (config: Config)
      ensures View() == NewPolicy(config) && View().Sound()
    {
      this.config := config.Normalised();
      activeRequests, consecutiveFailures, circuit, openedAt, halfOpenProbeActive := 0, 0, Closed, 0, false;
    }

    method TryAcquire(now: int) returns (admission: Admission)
      requires View().Sound()
      modifies this
      ensures admission == old(View()).Decide(now) && View() == old(View()).AfterAcquire(now) && View().Sound()
    {
      if circuit == Open {
        if now - openedAt < config.openDuration {
          return CircuitOpen;
        }
        circuit := HalfOpen;
      }
      if circuit == HalfOpen && halfOpenProbeActive {
        return CircuitOpen;
      }
      if activeRequests >= config.maxConcurrent {
        return ConcurrencyLimit;
      }
      activeRequests := activeRequests + 1;
      if circuit == HalfOpen {
        halfOpenProbeActive := true;
      }
      return Accepted;
    }

    method Release()
      requires View().Sound()
      modifies this
      ensures View() == old(View()).AfterRelease() && View().Sound()
    {
      if activeRequests > 0 {
        activeRequests := activeRequests - 1;
      }
    }

    method RecordResult(success: bool, transientFailure: bool, now: int)
      requires View().Sound()
      modifies this
      ensures View() == old(View()).AfterResult(success, transientFailure, now) && View().Sound()
    {
      if success {
        consecutiveFailures := 0;
        circuit := Closed;
        halfOpenProbeActive := false;
        return;
      }
      if !transientFailure {
        if circuit == HalfOpen {
          circuit := Closed;
          halfOpenProbeActive := false;
        }
        return;
      }
      consecutiveFailures := consecutiveFailures + 1;
      if circuit == HalfOpen || consecutiveFailures >= config.failureThreshold {
        circuit := Open;
        openedAt := now;
        halfOpenProbeActive := false;
      }
    }
  }

  // ---------------------------------------------------------------- runs of calls

  // One locked call as an observer notes it. An acquire notes the turn to half-open by itself.
  datatype Note =
    | Admitted(now: int)
    | TurnedHalfOpen
    | Opened(at: int)
    | ClosedAgain
    | Result(success: bool, transient: bool)

  datatype Call =
    | CallAcquire(now: int)
    | CallRelease
    | CallResult(success: bool, transient: bool, now: int)
  {
    predicate IsPermanentError() {
      CallResult? && !success && !transient
    }
    // A success, or an error that counts.
    predicate Settles() {
      CallResult? && (success || transient)
    }
  }

  function Do(p: Policy, c: Call): Policy {
    match c
    case CallAcquire(now) => p.AfterAcquire(now)
    case CallRelease => p.AfterRelease()
    case CallResult(s, t, now) => p.AfterResult(s, t, now)
  }

  function NotesOf(p: Policy, c: Call): seq<Note> {
    match c
    case CallAcquire(now) =>
      (if p.circuit == Open && now - p.openedAt >= p.config.openDuration then [TurnedHalfOpen] else []) +
      (if p.Decide(now) == Accepted then [Admitted(now)] else [])
    case CallRelease => []
    case CallResult(s, t, now) =>
      [Result(s, t)] +
      (if s || (!t && p.circuit == HalfOpen) then [ClosedAgain] else if t && p.Trips() then [Opened(now)] else [])
  }

  function DoAll(p: Policy, calls: seq<Call>): Policy
    decreases |calls|
  {
    if calls == [] then p else DoAll(Do(p, calls[0]), calls[1..])
  }

  function Log(p: Policy, calls: seq<Call>): seq<Note>
    decreases |calls|
  {
    if calls == [] then [] else NotesOf(p, calls[0]) + Log(Do(p, calls[0]), calls[1..])
  }

  // The policy that the i-th call of a run meets.
  function Before(p: Policy, calls: seq<Call>, i: nat): Policy
    requires i <= |calls|
  {
    DoAll(p, calls[..i])
  }

  lemma BeforeRest(p: Policy, calls: seq<Call>, i: nat)
    requires 0 < i <= |calls|
    ensures Before(p, calls, i) == Before(Do(p, calls[0]), calls[1..], i - 1)
  {
    assert calls[..i][0] == calls[0] && calls[..i][1..] == calls[1..][..i - 1];
  }

  lemma {:induction false} ConfigStays(p: Policy, calls: seq<Call>)
    ensures DoAll(p, calls).config == p.config
    decreases |calls|
  {
    if calls != [] {
      ConfigStays(Do(p, calls[0]), calls[1..]);
    }
  }

  // ---------------------------------------------------------------- closed at the threshold

  // Closed, with a counter that the next transient failure trips.
  predicate Over(p: Policy) {
    p.circuit == Closed && p.failures >= p.config.failureThreshold
  }

  /** A call leaves it so exactly when a permanent error ends a half-open circuit, or it was so and nothing settles it. */
  lemma OverAfterCall(p: Policy, c: Call)
    requires p.Sound()
    ensures Do(p, c).Sound()
    ensures Over(Do(p, c)) <==> (p.circuit == HalfOpen && c.IsPermanentError()) || (Over(p) && !c.Settles())
  {
  }

  // The i-th call is a permanent error that ends a half-open circuit, and nothing later settles it.
  ghost predicate LeftOver(p: Policy, calls: seq<Call>, i: nat)
    requires i < |calls|
  {
    && Before(p, calls, i).circuit == HalfOpen && calls[i].IsPermanentError()
    && forall j :: i < j < |calls| ==> !calls[j].Settles()
  }

  /**
   A run ends closed at the threshold exactly when some permanent error closed a half-open
   circuit without resetting its counter and no success or transient failure came after it.
   */
  lemma ClosedAtThresholdExactly(config: Config, calls: seq<Call>)
    ensures Over(DoAll(NewPolicy(config), calls)) <==> exists i: nat :: i < |calls| && LeftOver(NewPolicy(config), calls, i)
  {
    OverAfterRun(NewPolicy(config), calls);
  }

  lemma {:induction false} OverAfterRun(p: Policy, calls: seq<Call>)
    requires p.Sound()
    ensures Over(DoAll(p, calls)) <==>
            (Over(p) && forall j :: 0 <= j < |calls| ==> !calls[j].Settles()) ||
            (exists i: nat :: i < |calls| && LeftOver(p, calls, i))
    decreases |calls|
  {
    if calls != [] {
      var next, rest := Do(p, calls[0]), calls[1..];
      OverAfterCall(p, calls[0]);
      OverAfterRun(next, rest);
      assert forall j :: 0 <= j < |rest| ==> rest[j] == calls[j + 1];
      assert forall j :: 0 < j < |calls| ==> calls[j] == rest[j - 1];
      forall i: nat | i < |rest|
        ensures LeftOver(next, rest, i) <==> LeftOver(p, calls, i + 1)
      {
        LeftOverRest(p, calls, i + 1);
      }
      assert (exists i: nat :: 0 < i < |calls| && LeftOver(p, calls, i)) <==> exists i: nat :: i < |rest| && LeftOver(next, rest, i) by {
        if i: nat :| 0 < i < |calls| && LeftOver(p, calls, i) {
          assert LeftOver(next, rest, i - 1);
        }
        if i: nat :| i < |rest| && LeftOver(next, rest, i) {
          assert LeftOver(p, calls, i + 1);
        }
      }
      assert calls[..0] == [];
      assert LeftOver(p, calls, 0) <==>
             p.circuit == HalfOpen && calls[0].IsPermanentError() && forall j :: 0 <= j < |rest| ==> !rest[j].Settles();
    }
  }

  lemma LeftOverRest(p: Policy, calls: seq<Call>, i: nat)
    requires 0 < i < |calls|
    ensures LeftOver(p, calls, i) <==> LeftOver(Do(p, calls[0]), calls[1..], i - 1)
  {
    BeforeRest(p, calls, i);
    var rest := calls[1..];
    assert forall j :: 0 <= j < |rest| ==> rest[j] == calls[j + 1];
    assert forall j :: i < j < |calls| ==> calls[j] == rest[j - 1];
  }

  lemma {:induction false} DoAllConcat(p: Policy, a: seq<Call>, b: seq<Call>)
    ensures DoAll(p, a + b) == DoAll(DoAll(p, a), b)
    decreases |a|
  {
    if a == [] {
      assert a + b == b;
    } else {
      assert (a + b)[0] == a[0] && (a + b)[1..] == a[1..] + b;
      DoAllConcat(Do(p, a[0]), a[1..], b);
    }
  }

  lemma DoThree(p: Policy, a: Call, b: Call, c: Call)
    ensures DoAll(p, [a, b]) == Do(Do(p, a), b)
    ensures DoAll(p, [a, b, c]) == Do(Do(Do(p, a), b), c)
  {
    assert [a, b][1..] == [b] && [b][1..] == [] && [a, b, c][1..] == [b, c] && [b, c][1..] == [c] && [c][1..] == [];
    assert DoAll(Do(p, a), [b]) == DoAll(Do(Do(p, a), b), []);
    assert DoAll(Do(Do(p, a), b), [c]) == DoAll(Do(Do(Do(p, a), b), c), []);
    assert DoAll(Do(p, a), [b, c]) == DoAll(Do(Do(p, a), b), [c]);
  }

  // `n` requests at time 0, one after the other, that end in a transient failure.
  function FailedRequests(n: nat): seq<Call> {
    if n == 0 then [] else [CallAcquire(0), CallResult(false, true, 0), CallRelease] + FailedRequests(n - 1)
  }

  lemma {:induction false} FailedRequestsCount(p: Policy, n: nat)
    requires p.circuit == Closed && p.active == 0 && p.config.maxConcurrent > 0 && p.failures + n < p.config.failureThreshold
    ensures DoAll(p, FailedRequests(n)) == p.(failures := p.failures + n)
    decreases n
  {
    if n > 0 {
      var first := [CallAcquire(0), CallResult(false, true, 0), CallRelease];
      DoThree(p, first[0], first[1], first[2]);
      DoAllConcat(p, first, FailedRequests(n - 1));
      FailedRequestsCount(p.(failures := p.failures + 1), n - 1);
    }
  }

  // Failing requests up to the threshold, the last of which trips the circuit at time 0, and a
  // probe after the window that is answered with a permanent error.
  function ClosedAtThresholdCalls(config: Config): seq<Call> {
    FailedRequests(config.Normalised().failureThreshold - 1) +
    ([CallAcquire(0), CallResult(false, true, 0), CallRelease] +
     [CallAcquire(AfterWindow(config)), CallResult(false, false, AfterWindow(config))])
  }

  function AfterWindow(config: Config): (later: int)
    ensures later >= 0 && later >= config.openDuration
  {
    if config.openDuration < 0 then 0 else config.openDuration
  }

  /** For every configuration a run that ends so; the next transient failure trips the circuit. */
  lemma ClosedAtThresholdRun(config: Config)
    ensures var p := DoAll(NewPolicy(config), ClosedAtThresholdCalls(config));
            Over(p) && p.AfterResult(false, true, AfterWindow(config)).circuit == Open
  {
    var p := NewPolicy(config);
    var n := p.config.failureThreshold - 1;
    var trip := [CallAcquire(0), CallResult(false, true, 0), CallRelease];
    var probe := [CallAcquire(AfterWindow(config)), CallResult(false, false, AfterWindow(config))];
    FailedRequestsCount(p, n);
    DoAllConcat(p, FailedRequests(n), trip + probe);
    var p1 := p.(failures := n);
    DoThree(p1, trip[0], trip[1], trip[2]);
    DoAllConcat(p1, trip, probe);
    DoThree(DoAll(p1, trip), probe[0], probe[1], CallRelease);
  }

  // ---------------------------------------------------------------- what the log of a run shows

  predicate Ends(n: Note) {
    n.Opened? || n.ClosedAgain?
  }

  // An opening or closing strictly between two positions.
  ghost predicate Cut(log: seq<Note>, i: int, j: int) {
    exists k :: 0 <= i < k < j && k < |log| && Ends(log[k])
  }

  /** No two admissions in one half-open episode. */
  ghost predicate OneProbePerEpisode(log: seq<Note>) {
    forall h, i, j :: 0 <= h < i < j < |log| && log[h].TurnedHalfOpen? && log[i].Admitted? && log[j].Admitted? ==> Cut(log, h, j)
  }

  /** No admission inside the window that an opening starts. */
  ghost predicate WindowsRespected(log: seq<Note>, duration: int) {
    forall i, j :: 0 <= i < j < |log| && log[i].Opened? && log[j].Admitted? && log[j].now - log[i].at < duration ==> Cut(log, i, j)
  }

  // Transient failures since the last success.
  function TrailingFailures(log: seq<Note>): nat
    decreases |log|
  {
    if log == [] then 0
    else
      var last := log[|log| - 1];
      if last.Result? && last.success then 0
      else TrailingFailures(log[..|log| - 1]) + (if last.Result? && last.transient then 1 else 0)
  }

  ghost predicate TurnsCut(log: seq<Note>) {
    forall h :: 0 <= h < |log| && log[h].TurnedHalfOpen? ==> Cut(log, h, |log|)
  }

  ghost predicate AdmittedTurnsCut(log: seq<Note>) {
    forall h, i :: 0 <= h < i < |log| && log[h].TurnedHalfOpen? && log[i].Admitted? ==> Cut(log, h, |log|)
  }

  // An opening that nothing ended yet.
  ghost predicate StillOpen(log: seq<Note>, i: int) {
    0 <= i < |log| && log[i].Opened? && !Cut(log, i, |log|)
  }

  // A half-open turn, and an admission after it, belong to an episode that is over.
  ghost predicate Turns(log: seq<Note>, p: Policy) {
    && (p.circuit != HalfOpen ==> TurnsCut(log))
    && (p.circuit == HalfOpen && !p.probe ==> AdmittedTurnsCut(log))
  }

  // While the circuit is not closed, `openedAt` is the one opening that nothing ended.
  ghost predicate LastOpening(log: seq<Note>, p: Policy) {
    && (forall i :: StillOpen(log, i) ==> p.circuit != Closed && log[i].at == p.openedAt)
    && (p.circuit != Closed ==> exists i :: StillOpen(log, i))
  }

  // How the log so far and the policy's fields hang together, whatever times the calls carry.
  ghost predicate Explains(log: seq<Note>, p: Policy) {
    OneProbePerEpisode(log) && TrailingFailures(log) == p.failures && Turns(log, p) && LastOpening(log, p)
  }

  // What was cut stays cut when a note is added, and nothing earlier becomes cut.
  lemma CutsStay(log: seq<Note>, n: Note)
    ensures forall i, j :: 0 <= j <= |log| ==> (Cut(log, i, j) <==> Cut(log + [n], i, j))
    ensures forall i :: 0 <= i < |log| ==> (Cut(log + [n], i, |log + [n]|) <==> Cut(log, i, |log|) || Ends(n))
  {
    var log' := log + [n];
    assert forall k :: 0 <= k < |log| ==> log'[k] == log[k];
    assert log'[|log|] == n;
    forall i, j | 0 <= j <= |log|
      ensures Cut(log, i, j) <==> Cut(log', i, j)
    {
      if k :| 0 <= i < k < j && k < |log| && Ends(log[k]) {
        assert Ends(log'[k]);
      }
      if k :| 0 <= i < k < j && k < |log'| && Ends(log'[k]) {
        assert Ends(log[k]);
      }
    }
    forall i | 0 <= i < |log|
      ensures Cut(log', i, |log'|) <==> Cut(log, i, |log|) || Ends(n)
    {
      if k :| 0 <= i < k < |log'| && k < |log'| && Ends(log'[k]) {
        assert k < |log| ==> Ends(log[k]);
      }
      if k :| 0 <= i < k < |log| && k < |log| && Ends(log[k]) {
        assert Ends(log'[k]);
      }
      if Ends(n) {
        assert Ends(log'[|log|]);
      }
    }
  }

  lemma EpisodesAfter(log: seq<Note>, n: Note)
    requires OneProbePerEpisode(log) && (n.Admitted? ==> AdmittedTurnsCut(log))
    ensures OneProbePerEpisode(log + [n])
  {
    CutsStay(log, n);
    var log' := log + [n];
    forall h, i, j | 0 <= h < i < j < |log'| && log'[h].TurnedHalfOpen? && log'[i].Admitted? && log'[j].Admitted?
      ensures Cut(log', h, j)
    {
      assert log'[h] == log[h] && log'[i] == log[i];
      if j < |log| {
        assert log'[j] == log[j];
        assert Cut(log, h, j);
      } else {
        assert Cut(log, h, |log|);
      }
    }
  }

  lemma TrailingAfter(log: seq<Note>, n: Note)
    ensures TrailingFailures(log + [n]) ==
            if n.Result? && n.success then 0 else TrailingFailures(log) + if n.Result? && n.transient then 1 else 0
  {
    assert (log + [n])[..|log|] == log;
  }

  // What a note leads to, in the fields the log explains.
  predicate Follows(p: Policy, n: Note, q: Policy) {
    && q.failures == (if n.Result? && n.success then 0 else p.failures + if n.Result? && n.transient then 1 else 0)
    && match n
       case Admitted(_) => q.circuit == p.circuit && q.openedAt == p.openedAt && (p.circuit == HalfOpen ==> !p.probe && q.probe)
       case TurnedHalfOpen => p.circuit == Open && q.circuit == HalfOpen && q.openedAt == p.openedAt && !q.probe
       case Opened(at) => q.circuit == Open && q.openedAt == at
       case ClosedAgain => q.circuit == Closed
       case Result(_, _) => q.circuit == p.circuit && q.openedAt == p.openedAt && q.probe == p.probe
  }

  lemma TurnsAfter(log: seq<Note>, p: Policy, n: Note, q: Policy)
    requires Turns(log, p) && Follows(p, n, q)
    ensures Turns(log + [n], q)
  {
    CutsStay(log, n);
    var log' := log + [n];
    assert log'[|log|] == n;
    forall h | 0 <= h < |log'| && log'[h].TurnedHalfOpen? && q.circuit != HalfOpen
      ensures Cut(log', h, |log'|)
    {
      assert log'[h] == log[h];
      assert Cut(log, h, |log|) || Ends(n);
    }
    forall h, i | 0 <= h < i < |log'| && log'[h].TurnedHalfOpen? && log'[i].Admitted? && q.circuit == HalfOpen && !q.probe
      ensures Cut(log', h, |log'|)
    {
      assert log'[h] == log[h];
      assert i < |log| ==> log'[i] == log[i];
    }
  }

  lemma LastOpeningAfter(log: seq<Note>, p: Policy, n: Note, q: Policy)
    requires LastOpening(log, p) && Follows(p, n, q)
    ensures LastOpening(log + [n], q)
  {
    CutsStay(log, n);
    var log' := log + [n];
    assert forall i :: 0 <= i < |log| ==> log'[i] == log[i];
    assert forall i :: 0 <= i < |log| ==> (StillOpen(log', i) <==> StillOpen(log, i) && !Ends(n));
    if n.Opened? {
      assert !Cut(log', |log|, |log'|);
      assert StillOpen(log', |log|);
    } else if q.circuit != Closed {
      var i :| StillOpen(log, i);
      assert StillOpen(log', i);
    }
  }

  lemma NoteExplained(log: seq<Note>, p: Policy, n: Note, q: Policy)
    requires Explains(log, p) && p.Sound() && Follows(p, n, q)
    ensures Explains(log + [n], q)
  {
    if n.Admitted? && p.circuit != HalfOpen {
      assert AdmittedTurnsCut(log);
    }
    EpisodesAfter(log, n);
    TrailingAfter(log, n);
    TurnsAfter(log, p, n, q);
    LastOpeningAfter(log, p, n, q);
  }

  // The policy between the two notes a call may make.
  function MidCall(p: Policy, c: Call): Policy {
    match c
    case CallAcquire(now) =>
      if p.circuit == Open && now - p.openedAt >= p.config.openDuration then p.(circuit := HalfOpen) else p
    case CallRelease => p
    case CallResult(s, t, _) => p.(failures := if s then 0 else if t then p.failures + 1 else p.failures)
  }

  // A call makes a first note, a second note, both, or none.
  function FirstNote(p: Policy, c: Call): seq<Note> {
    match c
    case CallAcquire(now) => if p.circuit == Open && now - p.openedAt >= p.config.openDuration then [TurnedHalfOpen] else []
    case CallRelease => []
    case CallResult(s, t, _) => [Result(s, t)]
  }

  function SecondNote(p: Policy, c: Call): seq<Note> {
    match c
    case CallAcquire(now) => if p.Decide(now) == Accepted then [Admitted(now)] else []
    case CallRelease => []
    case CallResult(s, t, now) =>
      if s || (!t && p.circuit == HalfOpen) then [ClosedAgain] else if t && p.Trips() then [Opened(now)] else []
  }

  lemma CallKeepsExplained(log: seq<Note>, p: Policy, c: Call)
    requires Explains(log, p) && p.Sound()
    ensures Explains(log + FirstNote(p, c), MidCall(p, c)) && Explains(log + NotesOf(p, c), Do(p, c)) && Do(p, c).Sound()
  {
    var first, second, mid := FirstNote(p, c), SecondNote(p, c), MidCall(p, c);
    if first != [] {
      NoteExplained(log, p, first[0], mid);
      assert first == [first[0]];
    } else {
      assert log + first == log;
    }
    if second != [] {
      assert second == [second[0]];
      NoteAfterMid(log + first, mid, p, c);
    } else {
      assert NotesOf(p, c) == first;
      SameFields(log + first, mid, Do(p, c));
    }
    Assoc(log, first, second);
    assert NotesOf(p, c) == first + second;
  }

  lemma NoteAfterMid(log: seq<Note>, mid: Policy, p: Policy, c: Call)
    requires Explains(log, mid) && mid == MidCall(p, c) && p.Sound() && SecondNote(p, c) != []
    ensures Explains(log + [SecondNote(p, c)[0]], Do(p, c))
  {
    var n := SecondNote(p, c)[0];
    EpisodesAfter(log, n);
    TrailingAfter(log, n);
    TurnsAfter(log, mid, n, Do(p, c));
    LastOpeningAfter(log, mid, n, Do(p, c));
  }

  lemma SameFields(log: seq<Note>, p: Policy, q: Policy)
    requires Explains(log, p)
    requires q.circuit == p.circuit && q.probe == p.probe && q.openedAt == p.openedAt && q.failures == p.failures
    ensures Explains(log, q)
  {
  }

  lemma Assoc(a: seq<Note>, b: seq<Note>, c: seq<Note>)
    ensures a + (b + c) == (a + b) + c
  {
  }

  lemma {:induction false} RunIsExplained(log: seq<Note>, p: Policy, calls: seq<Call>)
    requires Explains(log, p) && p.Sound()
    ensures Explains(log + Log(p, calls), DoAll(p, calls)) && DoAll(p, calls).Sound()
    decreases |calls|
  {
    if calls == [] {
      assert log + Log(p, calls) == log;
    } else {
      CallKeepsExplained(log, p, calls[0]);
      RunIsExplained(log + NotesOf(p, calls[0]), Do(p, calls[0]), calls[1..]);
      Assoc(log, NotesOf(p, calls[0]), Log(Do(p, calls[0]), calls[1..]));
    }
  }

  lemma NothingYet(config: Config)
    ensures Explains([], NewPolicy(config)) && NewPolicy(config).Sound()
  {
  }

  /**
   The breaker over every interleaving of locked calls, whatever times they carry: the cap
   holds, an active probe means half-open, a tripped circuit has reached the threshold, the
   counter is the transient failures since the last success, and a half-open episode admits
   one call at most.
   */
  lemma BreakerHolds(config: Config, calls: seq<Call>)
    ensures var p, log := DoAll(NewPolicy(config), calls), Log(NewPolicy(config), calls);
            && p.Sound()
            && p.failures == TrailingFailures(log)
            && OneProbePerEpisode(log)
  {
    NothingYet(config);
    RunIsExplained([], NewPolicy(config), calls);
    assert [] + Log(NewPolicy(config), calls) == Log(NewPolicy(config), calls);
  }

  // ---------------------------------------------------------------- open windows

  // A half-open circuit admits a call without looking at the window again.
  predicate Early(p: Policy, c: Call) {
    c.CallAcquire? && p.circuit == HalfOpen && !p.probe && p.active < p.config.maxConcurrent && c.now - p.openedAt < p.config.openDuration
  }

  ghost predicate NeverEarly(p: Policy, calls: seq<Call>) {
    forall i :: 0 <= i < |calls| ==> !Early(Before(p, calls, i), calls[i])
  }

  lemma WindowsAfter(log: seq<Note>, n: Note, duration: int)
    ensures WindowsRespected(log + [n], duration) <==>
            WindowsRespected(log, duration) &&
            (n.Admitted? ==> forall i :: StillOpen(log, i) ==> n.now - log[i].at >= duration)
  {
    CutsStay(log, n);
    var log' := log + [n];
    assert forall i :: 0 <= i < |log| ==> log'[i] == log[i];
    assert log'[|log|] == n;
    if WindowsRespected(log', duration) {
      forall i, j | 0 <= i < j < |log| && log[i].Opened? && log[j].Admitted? && log[j].now - log[i].at < duration
        ensures Cut(log, i, j)
      {
        assert Cut(log', i, j);
      }
      forall i | StillOpen(log, i) && n.Admitted?
        ensures n.now - log[i].at >= duration
      {
        assert log'[i].Opened? && log'[|log|].Admitted?;
        assert !Cut(log', i, |log|);
      }
    }
    if WindowsRespected(log, duration) && (n.Admitted? ==> forall i :: StillOpen(log, i) ==> n.now - log[i].at >= duration) {
      forall i, j | 0 <= i < j < |log'| && log'[i].Opened? && log'[j].Admitted? && log'[j].now - log'[i].at < duration
        ensures Cut(log', i, j)
      {
        if j < |log| {
          assert Cut(log, i, j);
        } else {
          assert !StillOpen(log, i);
        }
      }
    }
  }

  lemma WindowsAfterCall(log: seq<Note>, p: Policy, c: Call)
    requires Explains(log, p) && p.Sound()
    ensures WindowsRespected(log + NotesOf(p, c), p.config.openDuration) <==>
            WindowsRespected(log, p.config.openDuration) && !Early(p, c)
  {
    var first, second, mid, d := FirstNote(p, c), SecondNote(p, c), MidCall(p, c), p.config.openDuration;
    CallKeepsExplained(log, p, c);
    if first == [] {
      assert log + first == log;
    } else {
      assert first == [first[0]];
      WindowsAfter(log, first[0], d);
    }
    assert NotesOf(p, c) == first + second;
    Assoc(log, first, second);
    if second == [] {
      assert (log + first) + second == log + first;
    } else {
      assert second == [second[0]];
      WindowsAfter(log + first, second[0], d);
      if second[0].Admitted? {
        AdmissionAt(log + first, p, c);
      }
    }
  }

  lemma AdmissionAt(log: seq<Note>, p: Policy, c: Call)
    requires Explains(log, MidCall(p, c)) && c.CallAcquire? && p.Decide(c.now) == Accepted
    ensures (forall i :: StillOpen(log, i) ==> c.now - log[i].at >= p.config.openDuration) <==> !Early(p, c)
  {
    var mid := MidCall(p, c);
    if mid.circuit != Closed {
      var i :| StillOpen(log, i);
      assert log[i].at == p.openedAt;
    }
  }

  /**
   No call is admitted inside an open window exactly when no half-open circuit admits one
   there: the elapsed time is looked at only by the call that turns the circuit half-open.
   */
  lemma WindowsExactly(config: Config, calls: seq<Call>)
    ensures WindowsRespected(Log(NewPolicy(config), calls), config.openDuration) <==>
            NeverEarly(NewPolicy(config), calls)
  {
    NothingYet(config);
    RunWindows([], NewPolicy(config), calls);
    assert [] + Log(NewPolicy(config), calls) == Log(NewPolicy(config), calls);
  }

  lemma {:induction false} RunWindows(log: seq<Note>, p: Policy, calls: seq<Call>)
    requires Explains(log, p) && p.Sound()
    ensures WindowsRespected(log + Log(p, calls), p.config.openDuration) <==>
            WindowsRespected(log, p.config.openDuration) && NeverEarly(p, calls)
    decreases |calls|
  {
    if calls == [] {
      assert log + Log(p, calls) == log;
    } else {
      FirstWindow(log, p, calls);
      RunWindows(log + NotesOf(p, calls[0]), Do(p, calls[0]), calls[1..]);
    }
  }

  lemma FirstWindow(log: seq<Note>, p: Policy, calls: seq<Call>)
    requires Explains(log, p) && p.Sound() && calls != []
    ensures var next, more := Do(p, calls[0]), log + NotesOf(p, calls[0]);
            && Explains(more, next) && next.Sound() && next.config == p.config
            && log + Log(p, calls) == more + Log(next, calls[1..])
            && (WindowsRespected(more, p.config.openDuration) && NeverEarly(next, calls[1..]) <==>
                WindowsRespected(log, p.config.openDuration) && NeverEarly(p, calls))
  {
    CallKeepsExplained(log, p, calls[0]);
    Assoc(log, NotesOf(p, calls[0]), Log(Do(p, calls[0]), calls[1..]));
    EarlyAfterCall(log, p, calls);
  }

  lemma EarlyAfterCall(log: seq<Note>, p: Policy, calls: seq<Call>)
    requires Explains(log, p) && p.Sound() && calls != []
    ensures WindowsRespected(log + NotesOf(p, calls[0]), p.config.openDuration) && NeverEarly(Do(p, calls[0]), calls[1..]) <==>
            WindowsRespected(log, p.config.openDuration) && NeverEarly(p, calls)
  {
    WindowsAfterCall(log, p, calls[0]);
    EarlyRest(p, calls);
  }

  lemma EarlyRest(p: Policy, calls: seq<Call>)
    requires calls != []
    ensures NeverEarly(p, calls) <==> !Early(p, calls[0]) && NeverEarly(Do(p, calls[0]), calls[1..])
  {
    var next, rest := Do(p, calls[0]), calls[1..];
    assert calls[..0] == [] && Before(p, calls, 0) == p;
    forall i | 0 <= i < |rest|
      ensures Early(Before(next, rest, i), rest[i]) <==> Early(Before(p, calls, i + 1), calls[i + 1])
    {
      BeforeRest(p, calls, i + 1);
    }
    if NeverEarly(next, rest) {
      forall i | 0 < i < |calls|
        ensures !Early(Before(p, calls, i), calls[i])
      {
        BeforeRest(p, calls, i);
        assert calls[i] == rest[i - 1];
      }
    }
  }

  // The acquires come in the order of their times; results may carry any.
  predicate AcquiresOrdered(calls: seq<Call>, clock: int)
    decreases |calls|
  {
    calls == [] ||
    (if calls[0].CallAcquire? then clock <= calls[0].now && AcquiresOrdered(calls[1..], calls[0].now)
     else AcquiresOrdered(calls[1..], clock))
  }

  /** When one thread makes the requests, so that acquires come in order, every window is respected. */
  lemma OrderedAcquiresRespectWindows(config: Config, calls: seq<Call>, start: int)
    requires AcquiresOrdered(calls, start)
    ensures WindowsRespected(Log(NewPolicy(config), calls), config.openDuration)
  {
    OrderedIsNeverEarly(NewPolicy(config), calls, start);
    WindowsExactly(config, calls);
  }

  lemma {:induction false} OrderedIsNeverEarly(p: Policy, calls: seq<Call>, clock: int)
    requires AcquiresOrdered(calls, clock)
    requires p.circuit == HalfOpen ==> clock - p.openedAt >= p.config.openDuration
    ensures NeverEarly(p, calls)
    decreases |calls|
  {
    if calls != [] {
      OrderedIsNeverEarly(Do(p, calls[0]), calls[1..], if calls[0].CallAcquire? then calls[0].now else clock);
      EarlyRest(p, calls);
    }
  }

  function Admissions(n: nat): seq<Call> {
    if n == 0 then [] else [CallAcquire(0)] + Admissions(n - 1)
  }

  lemma {:induction false} AdmissionsCount(p: Policy, n: nat)
    requires p.circuit == Closed && p.active + n <= p.config.maxConcurrent
    ensures DoAll(p, Admissions(n)) == p.(active := p.active + n)
    decreases n
  {
    if n > 0 {
      assert Admissions(n)[0] == CallAcquire(0) && Admissions(n)[1..] == Admissions(n - 1);
      AdmissionsCount(p.(active := p.active + 1), n - 1);
    }
  }

  // One failure short of the threshold, as many admissions as the cap allows, the last failure, an
  // acquire when the window is over, and a release.
  function FullThenHalfOpen(config: Config): seq<Call> {
    FailedRequests(config.Normalised().failureThreshold - 1) +
    (Admissions(config.Normalised().maxConcurrent) +
     [CallResult(false, true, 0), CallAcquire(config.openDuration), CallRelease])
  }

  /**
   Acquires out of order are enough to break it, for every configuration: one that comes when the
   cap is reached turns the circuit half-open and is turned away, and after a release one with an
   earlier time is admitted inside the window.
   */
  lemma LateAcquireIsAdmittedEarly(config: Config)
    ensures !WindowsRespected(Log(NewPolicy(config), FullThenHalfOpen(config) + [CallAcquire(config.openDuration - 1)]),
                              config.openDuration)
  {
    var before, late := FullThenHalfOpen(config), CallAcquire(config.openDuration - 1);
    var calls := before + [late];
    HalfOpenWithRoom(config);
    assert calls[..|before|] == before && calls[|before|] == late;
    assert Early(Before(NewPolicy(config), calls, |before|), calls[|before|]);
    WindowsExactly(config, calls);
  }

  lemma HalfOpenWithRoom(config: Config)
    ensures var p := DoAll(NewPolicy(config), FullThenHalfOpen(config));
            p.circuit == HalfOpen && !p.probe && p.active < p.config.maxConcurrent && p.openedAt == 0 &&
            p.config.openDuration == config.openDuration
  {
    var p := NewPolicy(config);
    var n, cap, d := p.config.failureThreshold - 1, p.config.maxConcurrent, config.openDuration;
    var trip := [CallResult(false, true, 0), CallAcquire(d), CallRelease];
    FailedRequestsCount(p, n);
    DoAllConcat(p, FailedRequests(n), Admissions(cap) + trip);
    var p1 := p.(failures := n);
    AdmissionsCount(p1, cap);
    DoAllConcat(p1, Admissions(cap), trip);
    DoThree(p1.(active := cap), trip[0], trip[1], trip[2]);
  }

  // ---------------------------------------------------------------- when calls are let through

  function AfterAcquires(p: Policy, times: seq<int>): Policy
    decreases |times|
  {
    if times == [] then p else AfterAcquires(p, times[..|times| - 1]).AfterAcquire(times[|times| - 1])
  }

  /** A new policy lets calls through up to its cap, and no further until one is released. */
  lemma {:induction false} AdmitsUpToTheCap(config: Config, times: seq<int>, now: int)
    ensures var p, cap := AfterAcquires(NewPolicy(config), times), if config.maxConcurrent == 0 then 1 else config.maxConcurrent;
            && p.circuit == Closed && !p.probe && p.config == config.Normalised()
            && p.active == (if |times| < cap then |times| else cap)
            && p.Decide(now) == (if |times| < cap then Accepted else ConcurrencyLimit)
            && p.AfterRelease().Decide(now) == Accepted
    decreases |times|
  {
    if times != [] {
      AdmitsUpToTheCap(config, times[..|times| - 1], times[|times| - 1]);
    }
  }

  // Failures in a row, reported at these times.
  function AfterFailures(p: Policy, times: seq<int>): Policy
    decreases |times|
  {
    if times == [] then p else AfterFailures(p, times[..|times| - 1]).AfterResult(false, true, times[|times| - 1])
  }

  /** Passing failures in a row open a new policy's circuit at the threshold, not before. */
  lemma {:induction false} TripsAtTheThreshold(config: Config, times: seq<int>)
    ensures var p, threshold := AfterFailures(NewPolicy(config), times), if config.failureThreshold < 1 then 1 else config.failureThreshold;
            && p.circuit == (if |times| < threshold then Closed else Open)
            && (|times| >= threshold ==> p.openedAt == times[|times| - 1])
            && p.failures == |times| && p.active == 0 && !p.probe && p.config == config.Normalised()
    decreases |times|
  {
    if times != [] {
      TripsAtTheThreshold(config, times[..|times| - 1]);
    }
  }

  /**
   The life of an open circuit: it turns calls away for the open window and then lets one probe
   through. The probe's success, or an error that no other attempt could cure, closes it; a
   passing failure opens it again for another window.
   */
  lemma BreakerCycle(config: Config, times: seq<int>, now: int, later: int)
    requires |times| >= 1 && |times| >= config.failureThreshold
    ensures var p := AfterFailures(NewPolicy(config), times);
            var probing := p.AfterAcquire(now);
            && p.Decide(now) == (if now - times[|times| - 1] < config.openDuration then CircuitOpen else Accepted)
            && (p.Decide(now) == Accepted ==>
                  && probing.circuit == HalfOpen && probing.Decide(later) == CircuitOpen
                  && probing.AfterResult(true, false, later).circuit == Closed && probing.AfterResult(true, false, later).failures == 0
                  && probing.AfterResult(false, false, later).circuit == Closed
                  && probing.AfterResult(false, true, later).circuit == Open && probing.AfterResult(false, true, later).openedAt == later)
  {
    TripsAtTheThreshold(config, times);
  }

  // One letter, whatever its case.
  predicate IsLetter(c: char, upper: char) {
    c == upper || (97 <= c as int <= 122 && c as int - 32 == upper as int)
  }

  /** GET and HEAD, in any case, are the requests that may be tried again. */
  lemma ReadsAreGetAndHead(m: string)
    ensures IsReadOnlyMethod(m) <==>
            || (|m| == 3 && IsLetter(m[0], 'G') && IsLetter(m[1], 'E') && IsLetter(m[2], 'T'))
            || (|m| == 4 && IsLetter(m[0], 'H') && IsLetter(m[1], 'E') && IsLetter(m[2], 'A') && IsLetter(m[3], 'D'))
  {
    var upper := seq(|m|, i requires 0 <= i < |m| => Upper(m[i]));
    assert forall i :: 0 <= i < |m| ==> upper[i] == Upper(m[i]);
  }
}
