/**
 Requests of the HTTP client (HttpClient.cpp, DoRequest and the destructor), interleaved.

 Any number of requests run at once, each in its own worker; every locked call and every network
 attempt is one step, in any order. What is proved is the accounting: each accepted request gives
 its policy slot and its place in the active count back exactly once, on every path.
 */
module HttpClient {
  import opened RequestPolicies

  /**
   SlotTaken: the policy slot is held, the request is not counted yet.
   Counted:  counted as active, its thread not started yet.
   Attempting(k): in network attempt k. Waiting(k): sleeping before attempt k + 1.
   Finished: only the guard's two returns are left. Leaving: only the active count is left.
   */
  datatype Stage = SlotTaken | Counted | Attempting(attempt: nat) | Waiting(attempt: nat) | Finished | Leaving

  datatype Worker = Worker(readOnly: bool, stage: Stage, attempts: nat) {
    predicate HoldsSlot() {
      stage != Leaving
    }
    predicate IsCounted() {
      stage != SlotTaken
    }
    // May still report a result to the policy.
    predicate CanReport() {
      stage.SlotTaken? || stage.Counted? || stage.Attempting? || stage.Waiting?
    }
  }

  // `active` is the client's own count, which the destructor waits on; it may not go below zero.
  datatype Client = Client(policy: Policy, active: int, shuttingDown: bool, destroyed: bool, workers: map<nat, Worker>)

  datatype Event =
    | Arrive(id: nat, readOnly: bool, now: int)
    | Count(id: nat)
    | Spawn(id: nat, started: bool)
    | AttemptEnds(id: nat, success: bool, status: int, now: int)
    | Wake(id: nat)
    | ReturnSlot(id: nat)
    | ReturnCount(id: nat)
    | Shutdown
    | Destroyed

  function NewClient(config: Config): Client {
    Client(NewPolicy(config), 0, false, false, map[])
  }

  predicate At(c: Client, id: nat, stage: Stage) {
    id in c.workers && c.workers[id].stage == stage
  }

  predicate Enabled(c: Client, e: Event) {
    match e
    case Arrive(id, _, _) => id !in c.workers && !c.destroyed
    case Count(id) => At(c, id, SlotTaken)
    case Spawn(id, _) => At(c, id, Counted)
    case AttemptEnds(id, _, _, _) => id in c.workers && c.workers[id].stage.Attempting?
    case Wake(id) => id in c.workers && c.workers[id].stage.Waiting?
    case ReturnSlot(id) => At(c, id, Finished)
    case ReturnCount(id) => At(c, id, Leaving)
    case Shutdown => !c.shuttingDown
    case Destroyed => c.shuttingDown && c.active == 0
  }

  function Move(c: Client, id: nat, stage: Stage): Client
    requires id in c.workers
  {
    c.(workers := c.workers[id := c.workers[id].(stage := stage)])
  }

  function Apply(c: Client, e: Event): Client
    requires Enabled(c, e)
  {
    match e
    case Arrive(id, readOnly, now) =>
      var c' := c.(policy := c.policy.AfterAcquire(now));
      if c.policy.Decide(now) == Accepted then c'.(workers := c.workers[id := Worker(readOnly, SlotTaken, 0)]) else c'
    case Count(id) =>
      if c.shuttingDown then c.(policy := c.policy.AfterRelease(), workers := c.workers - {id})
      else Move(c, id, Counted).(active := c.active + 1)
    case Spawn(id, started) =>
      if started then c.(workers := c.workers[id := c.workers[id].(stage := Attempting(0), attempts := 1)])
      else Move(c, id, Leaving).(policy := c.policy.AfterRelease())
    case AttemptEnds(id, success, status, now) => ApplyAttemptEnds(c, id, success, status, now)
    case Wake(id) =>
      var k := c.workers[id].stage.attempt;
      if c.shuttingDown then Move(c, id, Finished)
      else c.(workers := c.workers[id := c.workers[id].(stage := Attempting(k + 1), attempts := c.workers[id].attempts + 1)])
    case ReturnSlot(id) => Move(c, id, Leaving).(policy := c.policy.AfterRelease())
    case ReturnCount(id) => c.(active := c.active - 1, workers := c.workers - {id})
    case Shutdown => c.(shuttingDown := true)
    case Destroyed => c.(destroyed := true)
  }

  // A failed read may be retried; everything else reports its result to the policy.
  function ApplyAttemptEnds(c: Client, id: nat, success: bool, status: int, now: int): Client
    requires id in c.workers && c.workers[id].stage.Attempting?
  {
    var w := c.workers[id];
    if !success && !c.shuttingDown && ShouldRetry(c.policy.config, w.readOnly, w.stage.attempt, status == 0, status)
    then Move(c, id, Waiting(w.stage.attempt))
    else Move(c, id, Finished).(policy := c.policy.AfterResult(success, !success && (status == 0 || IsTransientHttpStatus(status)), now))
  }

  ghost predicate Legal(c: Client, es: seq<Event>)
    decreases |es|
  {
    es == [] || (Enabled(c, es[0]) && Legal(Apply(c, es[0]), es[1..]))
  }

  function Run(c: Client, es: seq<Event>): Client
    requires Legal(c, es)
    decreases |es|
  {
    if es == [] then c else Run(Apply(c, es[0]), es[1..])
  }

  // ---------------------------------------------------------------- accounting

  function Holders(workers: map<nat, Worker>): set<nat> {
    set id | id in workers && workers[id].HoldsSlot()
  }

  function CountedOnes(workers: map<nat, Worker>): set<nat> {
    set id | id in workers && workers[id].IsCounted()
  }

  /** The two counters are exactly the requests that still owe a return. */
  predicate Balanced(c: Client) {
    && c.policy.active == |Holders(c.workers)|
    && c.active == |CountedOnes(c.workers)|
  }

  // Attempts made so far fit the stage, the method and the retry limit.
  predicate AttemptsFit(config: Config, w: Worker) {
    match w.stage
    case SlotTaken => w.attempts == 0
    case Counted => w.attempts == 0
    case Attempting(k) => w.attempts == k + 1 && (k == 0 || (w.readOnly && k <= config.maxReadRetries))
    case Waiting(k) => w.attempts == k + 1 && w.readOnly && k < config.maxReadRetries
    case Finished => w.attempts <= if w.readOnly then config.maxReadRetries + 1 else 1
    case Leaving => w.attempts <= if w.readOnly then config.maxReadRetries + 1 else 1
  }

  ghost predicate Inv(c: Client) {
    && c.policy.Sound()
    && Balanced(c)
    && (forall id :: id in c.workers ==> AttemptsFit(c.policy.config, c.workers[id]))
    && (c.destroyed ==> c.shuttingDown && c.active == 0)
  }

  // Setting one worker changes each set by that worker alone.
  lemma SetsAfterUpdate(workers: map<nat, Worker>, id: nat, w: Worker)
    ensures Holders(workers[id := w]) == if w.HoldsSlot() then Holders(workers) + {id} else Holders(workers) - {id}
    ensures CountedOnes(workers[id := w]) == if w.IsCounted() then CountedOnes(workers) + {id} else CountedOnes(workers) - {id}
  {
  }

  lemma SetsAfterRemoval(workers: map<nat, Worker>, id: nat)
    ensures Holders(workers - {id}) == Holders(workers) - {id}
    ensures CountedOnes(workers - {id}) == CountedOnes(workers) - {id}
  {
  }

  // Replacing a worker by one in another stage keeps the balance when the counters follow.
  lemma UpdateKeepsInv(c: Client, id: nat, w: Worker, policy: Policy, active: int)
    requires Inv(c) && id in c.workers && policy.Sound() && policy.config == c.policy.config
    requires AttemptsFit(policy.config, w)
    requires w.HoldsSlot() ==> c.workers[id].HoldsSlot()
    requires c.workers[id].IsCounted() ==> w.IsCounted()
    requires policy.active == c.policy.active - if c.workers[id].HoldsSlot() && !w.HoldsSlot() then 1 else 0
    requires active == c.active + if w.IsCounted() && !c.workers[id].IsCounted() then 1 else 0
    requires !c.destroyed || active == c.active
    ensures Inv(c.(workers := c.workers[id := w], policy := policy, active := active))
  {
    UpdateKeepsBalance(c.workers, id, w);
    var next := c.(workers := c.workers[id := w], policy := policy, active := active);
    assert Balanced(next);
    assert forall i :: i in next.workers ==> next.workers[i] == if i == id then w else c.workers[i];
  }

  lemma UpdateKeepsBalance(workers: map<nat, Worker>, id: nat, w: Worker)
    requires id in workers
    requires w.HoldsSlot() ==> workers[id].HoldsSlot()
    requires workers[id].IsCounted() ==> w.IsCounted()
    ensures |Holders(workers[id := w])| == |Holders(workers)| - if workers[id].HoldsSlot() && !w.HoldsSlot() then 1 else 0
    ensures |CountedOnes(workers[id := w])| == |CountedOnes(workers)| + if w.IsCounted() && !workers[id].IsCounted() then 1 else 0
  {
    SetsAfterUpdate(workers, id, w);
    assert workers[id].HoldsSlot() <==> id in Holders(workers);
    assert workers[id].IsCounted() <==> id in CountedOnes(workers);
    SizeOfUpdate(Holders(workers), id);
    SizeOfUpdate(CountedOnes(workers), id);
  }

  lemma SizeOfUpdate(ids: set<nat>, id: nat)
    ensures |ids + {id}| == |ids| + if id in ids then 0 else 1
    ensures |ids - {id}| == |ids| - if id in ids then 1 else 0
  {
    if id in ids {
      assert ids + {id} == ids;
    } else {
      assert ids - {id} == ids;
    }
  }

  lemma ArriveKeepsInv(c: Client, id: nat, readOnly: bool, now: int)
    requires Inv(c) && Enabled(c, Arrive(id, readOnly, now))
    ensures Inv(Apply(c, Arrive(id, readOnly, now)))
  {
    if c.policy.Decide(now) == Accepted {
      NewWorkerKeepsBalance(c.workers, id, Worker(readOnly, SlotTaken, 0));
    }
    assert c.policy.AfterAcquire(now).Sound();
  }

  lemma NewWorkerKeepsBalance(workers: map<nat, Worker>, id: nat, w: Worker)
    requires id !in workers && w.stage == SlotTaken
    ensures |Holders(workers[id := w])| == |Holders(workers)| + 1
    ensures |CountedOnes(workers[id := w])| == |CountedOnes(workers)|
  {
    SetsAfterUpdate(workers, id, w);
    assert id !in Holders(workers) && id !in CountedOnes(workers);
    assert CountedOnes(workers) - {id} == CountedOnes(workers);
  }

  lemma CountKeepsInv(c: Client, id: nat)
    requires Inv(c) && Enabled(c, Count(id))
    ensures Inv(Apply(c, Count(id)))
  {
    assert id in Holders(c.workers) && id !in CountedOnes(c.workers);
    if c.shuttingDown {
      SetsAfterRemoval(c.workers, id);
      assert CountedOnes(c.workers) - {id} == CountedOnes(c.workers);
    } else {
      UpdateKeepsInv(c, id, c.workers[id].(stage := Counted), c.policy, c.active + 1);
    }
  }

  lemma ReturnCountKeepsInv(c: Client, id: nat)
    requires Inv(c) && Enabled(c, ReturnCount(id))
    ensures Inv(Apply(c, ReturnCount(id)))
  {
    assert id !in Holders(c.workers) && id in CountedOnes(c.workers);
    SetsAfterRemoval(c.workers, id);
    assert Holders(c.workers) - {id} == Holders(c.workers);
  }

  lemma SpawnKeepsInv(c: Client, id: nat, started: bool)
    requires Inv(c) && Enabled(c, Spawn(id, started))
    ensures Inv(Apply(c, Spawn(id, started)))
  {
    var c' := Apply(c, Spawn(id, started));
    assert id in Holders(c.workers) && id in CountedOnes(c.workers);
    UpdateKeepsInv(c, id, c'.workers[id], c'.policy, c.active);
  }

  lemma AttemptEndsKeepsInv(c: Client, id: nat, success: bool, status: int, now: int)
    requires Inv(c) && Enabled(c, AttemptEnds(id, success, status, now))
    ensures Inv(Apply(c, AttemptEnds(id, success, status, now)))
  {
    var c' := Apply(c, AttemptEnds(id, success, status, now));
    assert id in CountedOnes(c.workers) && AttemptsFit(c.policy.config, c.workers[id]);
    UpdateKeepsInv(c, id, c'.workers[id], c'.policy, c.active);
  }

  lemma WakeKeepsInv(c: Client, id: nat)
    requires Inv(c) && Enabled(c, Wake(id))
    ensures Inv(Apply(c, Wake(id)))
  {
    var c' := Apply(c, Wake(id));
    assert id in CountedOnes(c.workers) && AttemptsFit(c.policy.config, c.workers[id]);
    UpdateKeepsInv(c, id, c'.workers[id], c'.policy, c.active);
  }

  lemma ReturnSlotKeepsInv(c: Client, id: nat)
    requires Inv(c) && Enabled(c, ReturnSlot(id))
    ensures Inv(Apply(c, ReturnSlot(id)))
  {
    var c' := Apply(c, ReturnSlot(id));
    assert id in Holders(c.workers) && id in CountedOnes(c.workers);
    UpdateKeepsInv(c, id, c'.workers[id], c'.policy, c.active);
  }

  lemma StepKeepsInv(c: Client, e: Event)
    requires Inv(c) && Enabled(c, e)
    ensures Inv(Apply(c, e))
  {
    match e
    case Arrive(id, readOnly, now) => ArriveKeepsInv(c, id, readOnly, now);
    case Count(id) => CountKeepsInv(c, id);
    case Spawn(id, started) => SpawnKeepsInv(c, id, started);
    case AttemptEnds(id, success, status, now) => AttemptEndsKeepsInv(c, id, success, status, now);
    case Wake(id) => WakeKeepsInv(c, id);
    case ReturnSlot(id) => ReturnSlotKeepsInv(c, id);
    case ReturnCount(id) => ReturnCountKeepsInv(c, id);
    case Shutdown =>
    case Destroyed =>
  }

  lemma {:induction false} RunKeepsInv(c: Client, es: seq<Event>)
    requires Inv(c) && Legal(c, es)
    ensures Inv(Run(c, es))
    decreases |es|
  {
    if es != [] {
      StepKeepsInv(c, es[0]);
      RunKeepsInv(Apply(c, es[0]), es[1..]);
    }
  }

  /**
   Accounting over every interleaving: the cap is never exceeded; both counters are exactly the
   requests still owing a return, so when no request is left both are zero; a method other than a
   read makes one attempt at most and a read at most maxReadRetries + 1.
   */
  lemma RequestsAreAccountedFor(config: Config, es: seq<Event>)
    requires Legal(NewClient(config), es)
    ensures var c := Run(NewClient(config), es);
            && c.policy.active <= c.policy.config.maxConcurrent
            && c.policy.active == |Holders(c.workers)| && c.active == |CountedOnes(c.workers)|
            && (c.workers == map[] ==> c.policy.active == 0 && c.active == 0)
            && (forall id :: id in c.workers ==>
                               c.workers[id].attempts <= if c.workers[id].readOnly then c.policy.config.maxReadRetries + 1 else 1)
  {
    var c := NewClient(config);
    assert Holders(c.workers) == {} && CountedOnes(c.workers) == {};
    RunKeepsInv(c, es);
    var end := Run(c, es);
    if end.workers == map[] {
      assert Holders(end.workers) == {} && CountedOnes(end.workers) == {};
    }
  }

  /** The destructor returns only when no worker thread is left; none starts afterwards. */
  lemma DestructorWaitsForWorkers(config: Config, es: seq<Event>, id: nat)
    requires Legal(NewClient(config), es) && Run(NewClient(config), es).destroyed
    ensures id in Run(NewClient(config), es).workers ==> Run(NewClient(config), es).workers[id].stage == SlotTaken
  {
    var c := NewClient(config);
    assert Holders(c.workers) == {} && CountedOnes(c.workers) == {};
    RunKeepsInv(c, es);
    var end := Run(c, es);
    assert id in end.workers && end.workers[id].IsCounted() ==> id in CountedOnes(end.workers);
  }

  // ---------------------------------------------------------------- every request ends

  // Steps a worker can still take.
  function Left(config: Config, w: Worker): int {
    match w.stage
    case SlotTaken => 2 * config.maxReadRetries + 6
    case Counted => 2 * config.maxReadRetries + 5
    case Attempting(k) => 2 * (config.maxReadRetries - k) + 4
    case Waiting(k) => 2 * (config.maxReadRetries - k) + 3
    case Finished => 2
    case Leaving => 1
  }

  /** Each step of a worker brings it closer to its end, so no retry chain goes on forever. */
  lemma WorkerStepsRunOut(c: Client, e: Event, id: nat)
    requires Inv(c) && Enabled(c, e) && id in c.workers
    requires e.Count? || e.Spawn? || e.AttemptEnds? || e.Wake? || e.ReturnSlot? || e.ReturnCount?
    requires e.id == id
    ensures id in Apply(c, e).workers ==>
              0 < Left(c.policy.config, Apply(c, e).workers[id]) < Left(c.policy.config, c.workers[id])
    ensures Apply(c, e).policy.config == c.policy.config
  {
    StepKeepsInv(c, e);
    assert AttemptsFit(c.policy.config, c.workers[id]);
  }

  // ---------------------------------------------------------------- a probe that never reports

  // Once the client is shutting down, a request not yet counted and one that sleeps end without
  // another attempt.
  predicate MayReport(c: Client, id: nat) {
    id in c.workers && c.workers[id].CanReport() &&
    (c.shuttingDown ==> c.workers[id].stage.Counted? || c.workers[id].stage.Attempting?)
  }

  // A half-open circuit whose probe is out, with nobody left who could report a result.
  ghost predicate Stuck(c: Client) {
    c.policy.circuit == HalfOpen && c.policy.probe && forall id :: !MayReport(c, id)
  }

  lemma StepKeepsStuck(c: Client, e: Event)
    requires Stuck(c) && Enabled(c, e)
    ensures Stuck(Apply(c, e)) && (e.Arrive? ==> c.policy.Decide(e.now) == CircuitOpen)
  {
    var c' := Apply(c, e);
    assert e.AttemptEnds? || e.Spawn? || e.Count? || e.Wake? ==> !MayReport(c, e.id);
    forall id
      ensures !MayReport(c', id)
    {
      assert !MayReport(c, id);
    }
  }

  /** Then no later request is ever admitted, and the circuit never closes again. */
  lemma {:induction false} StuckForGood(c: Client, es: seq<Event>)
    requires Stuck(c) && Legal(c, es)
    ensures Stuck(Run(c, es)) && Run(c, es).workers.Keys <= c.workers.Keys
    decreases |es|
  {
    if es != [] {
      StepKeepsStuck(c, es[0]);
      StuckForGood(Apply(c, es[0]), es[1..]);
    }
  }

  /**
   A half-open circuit with its probe out can close exactly while some request may still report:
   if none may, no run closes it; if one may, some run does. While the client is shutting down
   only a request whose thread is to start or that is in its attempt still may.
   */
  lemma RecoversIffSomeoneReports(c: Client)
    requires c.policy.circuit == HalfOpen && c.policy.probe
    ensures (exists es :: Legal(c, es) && Run(c, es).policy.circuit == Closed) <==> (exists id :: MayReport(c, id))
  {
    if id :| MayReport(c, id) {
      var es := ReportSuccess(c, id);
      assert Legal(c, es) && Run(c, es).policy.circuit == Closed;
    } else {
      forall es | Legal(c, es)
        ensures Run(c, es).policy.circuit != Closed
      {
        StuckForGood(c, es);
      }
    }
  }

  lemma Prepend(c: Client, e: Event, es: seq<Event>)
    requires Enabled(c, e) && Legal(Apply(c, e), es)
    ensures Legal(c, [e] + es) && Run(c, [e] + es) == Run(Apply(c, e), es)
  {
    assert ([e] + es)[1..] == es;
  }

  lemma ReportSuccess(c: Client, id: nat) returns (es: seq<Event>)
    requires MayReport(c, id)
    ensures Legal(c, es) && Run(c, es).policy.circuit == Closed
    decreases match c.workers[id].stage case SlotTaken => 3 case Counted => 2 case Waiting(_) => 2 case _ => 1
  {
    match c.workers[id].stage {
      case SlotTaken =>
        var rest := ReportSuccess(Apply(c, Count(id)), id);
        Prepend(c, Count(id), rest);
        es := [Count(id)] + rest;
      case Counted =>
        var rest := ReportSuccess(Apply(c, Spawn(id, true)), id);
        Prepend(c, Spawn(id, true), rest);
        es := [Spawn(id, true)] + rest;
      case Waiting(_) =>
        var rest := ReportSuccess(Apply(c, Wake(id)), id);
        Prepend(c, Wake(id), rest);
        es := [Wake(id)] + rest;
      case Attempting(_) =>
        var c' := Apply(c, AttemptEnds(id, true, 200, 0));
        assert Legal(c', []) && Run(c', []) == c';
        Prepend(c, AttemptEnds(id, true, 200, 0), []);
        es := [AttemptEnds(id, true, 200, 0)] + [];
    }
  }

  // No request is under way.
  ghost predicate Quiet(c: Client) {
    c.policy.Sound() && c.policy.active == 0 && c.active == 0 && c.workers == map[] && !c.shuttingDown && !c.destroyed
  }

  // The probe after an open window, whose thread cannot be started.
  lemma FailedProbe(c: Client, now: int) returns (es: seq<Event>)
    requires Quiet(c) && c.policy.circuit == Open && now - c.policy.openedAt >= c.policy.config.openDuration
    ensures Legal(c, es) && Stuck(Run(c, es)) && Run(c, es).workers == map[]
  {
    var c1 := Apply(c, Arrive(0, true, now));
    assert At(c1, 0, SlotTaken);
    var c2 := Apply(c1, Count(0));
    var c3 := Apply(c2, Spawn(0, false));
    var c4 := Apply(c3, ReturnCount(0));
    assert c4.workers == map[];
    assert Legal(c4, []) && Run(c4, []) == c4;
    Prepend(c3, ReturnCount(0), []);
    Prepend(c2, Spawn(0, false), [ReturnCount(0)] + []);
    Prepend(c1, Count(0), [Spawn(0, false)] + ([ReturnCount(0)] + []));
    es := [Arrive(0, true, now)] + ([Count(0)] + ([Spawn(0, false)] + ([ReturnCount(0)] + [])));
    Prepend(c, Arrive(0, true, now), [Count(0)] + ([Spawn(0, false)] + ([ReturnCount(0)] + [])));
  }

  // A write answered with status 500: from its arrival to its start.
  lemma WriteStarts(c: Client) returns (es: seq<Event>)
    requires Quiet(c) && c.policy.circuit == Closed
    ensures Legal(c, es) && Run(c, es) == c.(policy := c.policy.(active := 1), active := 1, workers := map[0 := Worker(false, Attempting(0), 1)])
  {
    var c1 := Apply(c, Arrive(0, false, 0));
    assert At(c1, 0, SlotTaken);
    var c2 := Apply(c1, Count(0));
    var c3 := Apply(c2, Spawn(0, true));
    assert c3.workers == map[0 := Worker(false, Attempting(0), 1)];
    assert Legal(c3, []) && Run(c3, []) == c3;
    Prepend(c2, Spawn(0, true), []);
    Prepend(c1, Count(0), [Spawn(0, true)] + []);
    es := [Arrive(0, false, 0)] + ([Count(0)] + ([Spawn(0, true)] + []));
    Prepend(c, Arrive(0, false, 0), [Count(0)] + ([Spawn(0, true)] + []));
  }

  // And from its answer to its end.
  lemma WriteFails(c: Client) returns (es: seq<Event>)
    requires c.policy.Sound() && c.policy.active == 1 && c.active == 1 && !c.shuttingDown && !c.destroyed
    requires c.policy.circuit == Closed && c.workers == map[0 := Worker(false, Attempting(0), 1)]
    ensures Legal(c, es) && Quiet(Run(c, es))
    ensures Run(c, es).policy == c.policy.AfterResult(false, true, 0).(active := 0)
  {
    var c1 := Apply(c, AttemptEnds(0, false, 500, 0));
    var c2 := Apply(c1, ReturnSlot(0));
    var c3 := Apply(c2, ReturnCount(0));
    assert c3.workers == map[];
    assert Legal(c3, []) && Run(c3, []) == c3;
    Prepend(c2, ReturnCount(0), []);
    Prepend(c1, ReturnSlot(0), [ReturnCount(0)] + []);
    es := [AttemptEnds(0, false, 500, 0)] + ([ReturnSlot(0)] + ([ReturnCount(0)] + []));
    Prepend(c, AttemptEnds(0, false, 500, 0), [ReturnSlot(0)] + ([ReturnCount(0)] + []));
  }

  lemma {:induction false} RunConcat(c: Client, es: seq<Event>, fs: seq<Event>)
    requires Legal(c, es) && Legal(Run(c, es), fs)
    ensures Legal(c, es + fs) && Run(c, es + fs) == Run(Run(c, es), fs)
    decreases |es|
  {
    if es == [] {
      assert es + fs == fs;
    } else {
      RunConcat(Apply(c, es[0]), es[1..], fs);
      assert (es + fs)[0] == es[0] && (es + fs)[1..] == es[1..] + fs;
    }
  }

  // Failing writes, one after the other, until the circuit trips.
  lemma {:induction false} WritesTrip(c: Client) returns (es: seq<Event>)
    requires Quiet(c) && c.policy.circuit == Closed
    ensures Legal(c, es) && Quiet(Run(c, es))
    ensures Run(c, es).policy.circuit == Open && Run(c, es).policy.openedAt == 0 && Run(c, es).policy.config == c.policy.config
    decreases c.policy.config.failureThreshold - c.policy.failures
  {
    var start := WriteStarts(c);
    var end := WriteFails(Run(c, start));
    RunConcat(c, start, end);
    es := start + end;
    var c' := Run(c, es);
    if c'.policy.circuit != Open {
      var more := WritesTrip(c');
      RunConcat(c, es, more);
      es := es + more;
    }
  }

  /**
   Every client can end there, however it is configured: writes that fail trip the circuit,
   and the thread of the probe after the open window cannot be started.
   */
  lemma FailedThreadLeavesProbeOut(config: Config)
    ensures exists es :: Legal(NewClient(config), es) && Stuck(Run(NewClient(config), es)) &&
                         Run(NewClient(config), es).workers == map[]
  {
    var c := NewClient(config);
    var trip := WritesTrip(c);
    var probe := FailedProbe(Run(c, trip), c.policy.config.openDuration);
    RunConcat(c, trip, probe);
  }

  // ---------------------------------------------------------------- one request, as code

  /** The count shared by all requests of one client. */
  class RequestState {
    var shuttingDown: bool
    var activeRequests: int

    constructor ()
      ensures !shuttingDown && activeRequests == 0
    {
      shuttingDown, activeRequests := false, 0;
    }
  }

  // What one network attempt brought: a status of zero is a transport failure.
  datatype Answer = Answer(success: bool, status: int) {
    // No result yet to report: a failure that another attempt may cure.
    predicate Transient() {
      !success && (status == 0 || IsTransientHttpStatus(status))
    }
  }

  /** The network, with every answer it has given. */
  class Network {
    ghost var answers: seq<Answer>

    constructor ()
      ensures answers == []
    {
      answers := [];
    }

    method Attempt() returns (success: bool, status: int)
      modifies this
      ensures answers == old(answers) + [Answer(success, status)]
    {
      success, status := *, *;
      answers := answers + [Answer(success, status)];
    }
  }

  // The answer to attempt `attempt` is tried again.
  predicate TriedAgain(config: Config, readOnly: bool, attempt: int, answer: Answer) {
    !answer.success && ShouldRetry(config, readOnly, attempt, answer.status == 0, answer.status)
  }

  // These answers, the first of attempt `attempt`, are one chain: all but the last are tried again.
  ghost predicate Chain(config: Config, readOnly: bool, attempt: nat, answers: seq<Answer>) {
    answers != [] && forall i :: 0 <= i < |answers| - 1 ==> TriedAgain(config, readOnly, attempt + i, answers[i])
  }

  function LastOf(answers: seq<Answer>): Answer
    requires answers != []
  {
    answers[|answers| - 1]
  }

  /**
   How long a chain gets: a write, or a read that succeeds or fails for good, ends with its
   first such answer; a read whose every answer is a passing failure takes all its retries.
   */
  lemma ChainLength(config: Config, readOnly: bool, answers: seq<Answer>)
    requires Chain(config, readOnly, 0, answers) && config.maxReadRetries >= 0
    ensures |answers| <= if readOnly then config.maxReadRetries + 1 else 1
    ensures forall i :: 0 <= i < |answers| - 1 ==> answers[i].Transient()
    ensures TriedAgain(config, readOnly, |answers| - 1, LastOf(answers)) <==>
            && readOnly && !LastOf(answers).success && |answers| <= config.maxReadRetries
            && (LastOf(answers).status in {0, 408, 425, 429} || 500 <= LastOf(answers).status <= 599)
  {
    if |answers| > 1 {
      assert TriedAgain(config, readOnly, 0 + (|answers| - 2), answers[|answers| - 2]);
    }
  }

  /**
   The attempt chain of one worker. It makes another attempt exactly while the answer is to be
   tried again and the client is not shutting down, and reports the last answer, once; only a
   shutdown between two attempts leaves it without a report.
   */
  method PerformAttempt(network: Network, policy: RequestPolicy, state: RequestState, readOnly: bool, attempt: nat, now: int)
    returns (attempts: nat, recorded: bool)
    requires policy.View().Sound()
    requires attempt == 0 || (readOnly && attempt <= policy.config.maxReadRetries)
    modifies network, policy, state`shuttingDown
    ensures policy.View().Sound() && policy.activeRequests == old(policy.activeRequests)
    ensures 1 <= attempts && attempt + attempts <= if readOnly then policy.config.maxReadRetries + 1 else 1
    ensures old(network.answers) <= network.answers && |network.answers| == |old(network.answers)| + attempts
    ensures Chain(policy.config, readOnly, attempt, network.answers[|old(network.answers)|..])
    ensures var last := LastOf(network.answers);
            && policy.View() == (if recorded then old(policy.View()).AfterResult(last.success, last.Transient(), now) else old(policy.View()))
            && (!recorded ==> state.shuttingDown && TriedAgain(policy.config, readOnly, attempt + attempts - 1, last))
            && (recorded && !state.shuttingDown ==> !TriedAgain(policy.config, readOnly, attempt + attempts - 1, last))
    decreases policy.config.maxReadRetries - attempt
  {
    ghost var before := network.answers;
    var success, status := network.Attempt();
    assert network.answers[|before|..] == [Answer(success, status)];
    if !success && !state.shuttingDown && ShouldRetry(policy.config, readOnly, attempt, status == 0, status) {
      // The shutdown flag may be raised while the worker sleeps.
      var raised := *;
      state.shuttingDown := raised;
      if !state.shuttingDown {
        ghost var first := network.answers;
        attempts, recorded := PerformAttempt(network, policy, state, readOnly, attempt + 1, now);
        ghost var rest := network.answers[|first|..];
        assert network.answers[|before|..] == [Answer(success, status)] + rest;
        assert forall i :: 1 <= i < |rest| ==> ([Answer(success, status)] + rest)[i] == rest[i - 1];
        ChainGrows(policy.config, readOnly, attempt, Answer(success, status), rest);
        attempts := attempts + 1;
        return;
      }
      return 1, false;
    }
    policy.RecordResult(success, !success && (status == 0 || IsTransientHttpStatus(status)), now);
    return 1, true;
  }

  lemma ChainGrows(config: Config, readOnly: bool, attempt: nat, first: Answer, rest: seq<Answer>)
    requires TriedAgain(config, readOnly, attempt, first) && Chain(config, readOnly, attempt + 1, rest)
    ensures Chain(config, readOnly, attempt, [first] + rest)
  {
    var answers := [first] + rest;
    forall i | 0 <= i < |answers| - 1
      ensures TriedAgain(config, readOnly, attempt + i, answers[i])
    {
      if i > 0 {
        assert TriedAgain(config, readOnly, attempt + 1 + (i - 1), rest[i - 1]);
      }
    }
  }

  /**
   One request with nothing else running. An accepted one whose thread starts makes its chain of
   attempts, any other none; the policy is left as the admission and the last answer leave it;
   and both counts come back to where they were, whatever happens.
   */
  method DoRequest(network: Network, policy: RequestPolicy, state: RequestState, httpMethod: string, now: int, threadStarts: bool)
    returns (admission: Admission, attempts: nat, recorded: bool)
    requires policy.View().Sound()
    modifies network, policy, state
    ensures policy.View().Sound()
    ensures policy.activeRequests == old(policy.activeRequests) && state.activeRequests == old(state.activeRequests)
    ensures admission == old(policy.View()).Decide(now)
    ensures attempts > 0 <==> admission == Accepted && !old(state.shuttingDown) && threadStarts
    ensures old(network.answers) <= network.answers && |network.answers| == |old(network.answers)| + attempts
    ensures attempts > 0 ==> Chain(policy.config, IsReadOnlyMethod(httpMethod), 0, network.answers[|old(network.answers)|..])
    ensures attempts > 0 && !state.shuttingDown ==>
              recorded && !TriedAgain(policy.config, IsReadOnlyMethod(httpMethod), attempts - 1, LastOf(network.answers))
    ensures recorded ==> attempts > 0
    ensures attempts <= if IsReadOnlyMethod(httpMethod) then policy.config.maxReadRetries + 1 else 1
    ensures var acquired := old(policy.View()).AfterAcquire(now);
            policy.View() ==
            if admission != Accepted then acquired
            else if recorded then acquired.AfterResult(LastOf(network.answers).success, LastOf(network.answers).Transient(), now).AfterRelease()
            else acquired.AfterRelease()
  {
    attempts, recorded := 0, false;
    admission := policy.TryAcquire(now);
    if admission != Accepted {
      return;
    }
    if state.shuttingDown {
      policy.Release();
      return;
    }
    state.activeRequests := state.activeRequests + 1;
    if threadStarts {
      attempts, recorded := PerformAttempt(network, policy, state, IsReadOnlyMethod(httpMethod), 0, now);
    }
    policy.Release();
    state.activeRequests := state.activeRequests - 1;
  }
}
