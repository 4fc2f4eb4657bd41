/**
 One permission job over its whole life, as a step system (HeartShop.cpp,
 ProcessPermissionDelivery; PermissionSync.cpp, BeginJournal).

 The backend may send the job again at any time, every journal write may fail, and the process
 may crash between any two steps: also between two calls to the group plugin. A record that was
 left unfinished is dropped and begun again, and the plan is made anew. Nothing but this job
 changes the player's membership.
 */
module PermissionRuns {
  import opened Journal
  import opened Fingerprints
  import opened Options
  import opened PermissionSync

  datatype Job = Job(deliveryType: string, deliveryKey: string, payload: bytes, request: Request) {
    function Key(): string {
      MakeKey(deliveryType, deliveryKey)
    }
  }

  // `again` is the second begin, after an unfinished record was dropped.
  datatype Pc =
    | Down
    | Idle
    | AtBegin(plan: Attempt, again: bool)
    | AtDrop(plan: Attempt)
    | AtMark(plan: Attempt)
    | Running
    | AtComplete
    | AtAbort(reply: JobReply)
    | AtReply(reply: JobReply)

  // `start` is what the player held at first; `tries` are all tries so far, the latest last.
  datatype World = World(job: Job, start: Membership, memory: Option<Deliveries>, disk: Option<Deliveries>, pc: Pc,
                         membership: Membership, tries: seq<Attempt>, acked: bool)

  datatype Event =
    | Claim(now: int, at: int, timedSupported: bool)
    | Begin(persisted: bool)
    | Drop(persisted: bool)
    | Mark(persisted: bool)
    | CallPlugin
    | GiveUp(reply: JobReply)
    | PlanDone
    | Complete(persisted: bool)
    | Abort(persisted: bool)
    | Send
    | OtherProtocol(deliveries: Deliveries)
    | Crash
    | Start(readable: bool, persisted: bool)

  function FirstStart(job: Job, start: Membership): World {
    World(job, start, None, None, Down, start, [], false)
  }

  function StoreOf(w: World): Store {
    Store(if w.memory.Some? then w.memory.value else map[], w.disk)
  }

  function WithStore(w: World, s: Store, pc: Pc): World {
    w.(memory := Some(s.memory), disk := s.disk, pc := pc)
  }

  function Last(tries: seq<Attempt>): Attempt
    requires tries != []
  {
    tries[|tries| - 1]
  }

  function Init(tries: seq<Attempt>): seq<Attempt>
    requires tries != []
  {
    tries[..|tries| - 1]
  }

  function PlanOf(request: Request, a: Attempt): Plan {
    BuildPlan(request, a.now, a.timedSupported)
  }

  predicate CallsLeft(w: World) {
    w.tries != [] && Last(w.tries).ran < |PlanOf(w.job.request, Last(w.tries)).steps|
  }

  // A call that takes effect and then reports a failure is a call followed by giving up.
  ghost predicate Enabled(w: World, e: Event) {
    match e
    case Claim(now, at, _) => w.pc.Idle? && now <= at
    case Begin(_) => w.pc.AtBegin? && w.memory.Some?
    case Drop(_) => w.pc.AtDrop? && w.memory.Some?
    case Mark(_) => w.pc.AtMark? && w.memory.Some?
    case CallPlugin => w.pc.Running? && CallsLeft(w)
    case GiveUp(reply) => w.pc.Running? && reply != AckJob
    case PlanDone =>
      && w.pc.Running? && w.tries != [] && !CallsLeft(w)
      && (PlanOf(w.job.request, Last(w.tries)).verifyInGroup ==> InGroup(w.membership, Last(w.tries).at))
    case Complete(_) => w.pc.AtComplete? && w.memory.Some?
    case Abort(_) => w.pc.AtAbort? && w.memory.Some?
    case Send => w.pc.AtReply?
    case OtherProtocol(d) => w.pc.Idle? && w.memory.Some? && Keeps(w.memory.value, d, w.job.Key())
    case Crash => !w.pc.Down?
    case Start(_, _) => w.pc.Down?
  }

  function Apply(w: World, e: Event): World
    requires Enabled(w, e)
  {
    match e
    case Claim(now, at, timedSupported) =>
      w.(pc := if w.memory.None? then AtReply(ReleaseJob) else AtBegin(Attempt(now, at, timedSupported, 0), false))
    case Begin(persisted) => ApplyBegin(w, persisted)
    case Drop(persisted) =>
      WithStore(w, AfterAbort(StoreOf(w), w.job.Key(), persisted),
                if AbortOutcome(StoreOf(w), w.job.Key(), persisted) then AtBegin(w.pc.plan, true) else AtReply(ReleaseJob))
    case Mark(persisted) =>
      if MarkAllowed(StoreOf(w), w.job.Key()) && persisted then
        WithStore(w, AfterMark(StoreOf(w), w.job.Key(), persisted), Running).(tries := w.tries + [w.pc.plan.(ran := 0)])
      else WithStore(w, AfterMark(StoreOf(w), w.job.Key(), persisted), AtAbort(ReleaseJob))
    case CallPlugin =>
      var a := Last(w.tries);
      w.(membership := Call(w.membership, PlanOf(w.job.request, a).steps[a.ran], a.at).0,
         tries := Init(w.tries) + [a.(ran := a.ran + 1)])
    case GiveUp(reply) => w.(pc := AtAbort(reply))
    case PlanDone => w.(pc := AtComplete)
    case Complete(persisted) =>
      WithStore(w, AfterComplete(StoreOf(w), w.job.Key(), persisted),
                AtReply(if w.job.Key() in w.memory.value && persisted then AckJob else ReleaseJob))
    case Abort(persisted) => WithStore(w, AfterAbort(StoreOf(w), w.job.Key(), persisted), AtReply(w.pc.reply))
    case Send => w.(pc := Idle, acked := w.acked || w.pc.reply == AckJob)
    case OtherProtocol(d) => w.(memory := Some(d), disk := Some(d))
    case Crash => w.(memory := None, pc := Down)
    case Start(readable, persisted) =>
      if w.disk.None? then
        if persisted then w.(memory := Some(map[]), disk := Some(map[]), pc := Idle) else w.(pc := Idle)
      else w.(memory := if readable then w.disk else None, pc := Idle)
  }

  function ApplyBegin(w: World, persisted: bool): World
    requires Enabled(w, Begin(persisted))
  {
    var job, s := w.job, StoreOf(w);
    WithStore(w, AfterBegin(s, job.deliveryType, job.deliveryKey, job.payload, persisted),
              match BeginOutcome(s, job.deliveryType, job.deliveryKey, job.payload, persisted)
              case Started => AtMark(w.pc.plan)
              case AlreadyCompleted => AtReply(AckJob)
              case PayloadMismatch => AtReply(FailJob)
              case UncertainPrepared => if w.pc.again then AtReply(ReleaseJob) else AtDrop(w.pc.plan)
              case PersistenceError => AtReply(ReleaseJob))
  }

  ghost predicate Legal(w: World, es: seq<Event>)
    decreases |es|
  {
    es == [] || (Enabled(w, es[0]) && Legal(Apply(w, es[0]), es[1..]))
  }

  function Run(w: World, es: seq<Event>): World
    requires Legal(w, es)
    decreases |es|
  {
    if es == [] then w else Run(Apply(w, es[0]), es[1..])
  }

  // ---------------------------------------------------------------- the inductive invariant

  predicate Durable(w: World, phase: Phase) {
    w.disk.Some? && w.job.Key() in w.disk.value && w.disk.value[w.job.Key()].phase == phase
  }

  ghost predicate InSync(w: World) {
    && (w.memory.Some? ==> w.disk == w.memory)
    && (w.pc.Down? ==> w.memory.None?)
  }

  predicate RecordIsOurs(w: World) {
    w.disk.Some? && w.job.Key() in w.disk.value ==>
      w.disk.value[w.job.Key()].fingerprint == FingerprintOf(w.job.payload)
  }

  predicate RanWhole(w: World) {
    w.tries != [] && Whole(w.job.request, Last(w.tries))
  }

  /** The membership is what the tries make of the first one, cut off wherever they were. */
  ghost predicate TriesExplain(w: World) {
    AllFit(w.job.request, w.tries) && w.membership == AfterAll(w.start, w.job.request, w.tries)
  }

  ghost predicate PcConsistent(w: World) {
    match w.pc
    case Down => true
    case Idle => true
    case AtBegin(a, _) => a.now <= a.at && w.memory.Some?
    case AtDrop(a) => a.now <= a.at && w.memory.Some? && !Durable(w, Completed)
    case AtMark(a) => a.now <= a.at && w.memory.Some? && Durable(w, Prepared)
    case Running => w.tries != [] && w.memory.Some? && Durable(w, Mutating)
    case AtComplete => RanWhole(w) && w.memory.Some? && Durable(w, Mutating)
    case AtAbort(reply) => reply != AckJob && w.memory.Some? && !Durable(w, Completed)
    case AtReply(reply) => reply == AckJob ==> Durable(w, Completed)
  }

  ghost predicate Inv(w: World) {
    && InSync(w) && RecordIsOurs(w) && TriesExplain(w) && PcConsistent(w)
    && (Durable(w, Completed) ==> RanWhole(w))
    && (w.acked ==> Durable(w, Completed))
  }

  lemma {:induction false} AfterOneMore(m: Membership, request: Request, tries: seq<Attempt>, a: Attempt)
    requires AllFit(request, tries) && Fits(request, a)
    ensures AllFit(request, tries + [a])
    ensures AfterAll(m, request, tries + [a]) == AfterAttempt(AfterAll(m, request, tries), request, a)
    decreases |tries|
  {
    if tries == [] {
      assert tries + [a] == [a] && [a][1..] == [];
    } else {
      assert (tries + [a])[0] == tries[0] && (tries + [a])[1..] == tries[1..] + [a];
      AfterOneMore(AfterAttempt(m, request, tries[0]), request, tries[1..], a);
    }
  }

  lemma TriesSplit(w: World)
    requires AllFit(w.job.request, w.tries) && w.tries != []
    ensures AllFit(w.job.request, Init(w.tries)) && Fits(w.job.request, Last(w.tries))
    ensures AfterAll(w.start, w.job.request, w.tries) ==
            AfterAttempt(AfterAll(w.start, w.job.request, Init(w.tries)), w.job.request, Last(w.tries))
  {
    assert w.tries == Init(w.tries) + [Last(w.tries)];
    AfterOneMore(w.start, w.job.request, Init(w.tries), Last(w.tries));
  }

  // One more call of a try is what one more step of its plan makes of the membership.
  lemma OneMoreCall(m: Membership, request: Request, a: Attempt)
    requires Fits(request, a) && a.ran < |PlanOf(request, a).steps|
    ensures Fits(request, a.(ran := a.ran + 1))
    ensures AfterAttempt(m, request, a.(ran := a.ran + 1)) ==
            Call(AfterAttempt(m, request, a), PlanOf(request, a).steps[a.ran], a.at).0
  {
    var steps := PlanOf(request, a).steps;
    assert steps[..a.ran + 1] == steps[..a.ran] + [steps[a.ran]];
    RunStepsAppend(m, steps[..a.ran], steps[a.ran], a.at);
  }

  lemma CallExplained(w: World)
    requires TriesExplain(w) && Enabled(w, CallPlugin)
    ensures TriesExplain(Apply(w, CallPlugin))
  {
    var a := Last(w.tries);
    TriesSplit(w);
    OneMoreCall(AfterAll(w.start, w.job.request, Init(w.tries)), w.job.request, a);
    AfterOneMore(w.start, w.job.request, Init(w.tries), a.(ran := a.ran + 1));
  }

  lemma MarkExplained(w: World, persisted: bool)
    requires TriesExplain(w) && Enabled(w, Mark(persisted)) && w.pc.plan.now <= w.pc.plan.at
    ensures TriesExplain(Apply(w, Mark(persisted)))
  {
    var a := w.pc.plan.(ran := 0);
    AfterOneMore(w.start, w.job.request, w.tries, a);
    assert PlanOf(w.job.request, a).steps[..0] == [];
  }

  lemma BeginKeepsInv(w: World, persisted: bool)
    requires Inv(w) && Enabled(w, Begin(persisted))
    ensures Inv(Apply(w, Begin(persisted)))
  {
  }

  lemma MarkKeepsInv(w: World, persisted: bool)
    requires Inv(w) && Enabled(w, Mark(persisted))
    ensures Inv(Apply(w, Mark(persisted)))
  {
    MarkExplained(w, persisted);
  }

  lemma SettleKeepsInv(w: World, e: Event)
    requires Inv(w) && Enabled(w, e) && (e.Drop? || e.Complete? || e.Abort?)
    ensures Inv(Apply(w, e))
  {
  }

  lemma CallKeepsInv(w: World)
    requires Inv(w) && Enabled(w, CallPlugin)
    ensures Inv(Apply(w, CallPlugin))
  {
    CallExplained(w);
  }

  lemma PlanDoneKeepsInv(w: World)
    requires Inv(w) && Enabled(w, PlanDone)
    ensures Inv(Apply(w, PlanDone))
  {
    TriesSplit(w);
  }

  lemma StepKeepsInv(w: World, e: Event)
    requires Inv(w) && Enabled(w, e)
    ensures Inv(Apply(w, e))
  {
    match e
    case Begin(persisted) => BeginKeepsInv(w, persisted);
    case Mark(persisted) => MarkKeepsInv(w, persisted);
    case Drop(_) => SettleKeepsInv(w, e);
    case Complete(_) => SettleKeepsInv(w, e);
    case Abort(_) => SettleKeepsInv(w, e);
    case CallPlugin => CallKeepsInv(w);
    case PlanDone => PlanDoneKeepsInv(w);
    case Claim(_, _, _) =>
    case GiveUp(_) =>
    case Send =>
    case OtherProtocol(_) =>
    case Crash =>
    case Start(_, _) =>
  }

  lemma {:induction false} RunKeepsInv(w: World, es: seq<Event>)
    requires Inv(w) && Legal(w, es)
    ensures Inv(Run(w, es)) && Run(w, es).job == w.job && Run(w, es).start == w.start
    decreases |es|
  {
    if es != [] {
      StepKeepsInv(w, es[0]);
      RunKeepsInv(Apply(w, es[0]), es[1..]);
    }
  }

  // ---------------------------------------------------------------- main results

  /**
   Acknowledged means done: over every run from the first start, once the backend was told
   "complete" the record is durably completed, the latest try ran whole, and the membership is
   still what that try made of whatever the earlier, cut-off ones had left.
   */
  lemma AckMeansDone(job: Job, start: Membership, es: seq<Event>)
    requires Legal(FirstStart(job, start), es) && Run(FirstStart(job, start), es).acked
    ensures var w := Run(FirstStart(job, start), es);
            && w.job == job && Durable(w, Completed) && RanWhole(w)
            && AllFit(job.request, Init(w.tries)) && Fits(job.request, Last(w.tries))
            && w.membership == AfterAttempt(AfterAll(start, job.request, Init(w.tries)), job.request, Last(w.tries))
  {
    RunKeepsInv(FirstStart(job, start), es);
    TriesSplit(Run(FirstStart(job, start), es));
  }

  /**
   So a timed grant that was acknowledged, and whose latest try was made before the end with a
   group plugin that knows timed groups, holds to its absolute end and no longer, however many
   crashes and re-sends there were: late by the seconds between planning and calling at most.
   */
  lemma AckedTimedGrant(job: Job, start: Membership, es: seq<Event>)
    requires job.request.kind == Add && job.request.expiresAt.Some?
    requires Legal(FirstStart(job, start), es) && Run(FirstStart(job, start), es).acked
    ensures var w := Run(FirstStart(job, start), es);
            RanWhole(w) &&
            var last := Last(w.tries);
            var left := job.request.expiresAt.value - last.now;
            && (left > 0 && left <= INT_MAX && last.timedSupported ==>
                  w.membership == Membership(false, Some(job.request.expiresAt.value + (last.at - last.now))))
            && (left > 0 && !last.timedSupported ==> w.membership.permanent)
  {
    AckMeansDone(job, start, es);
    var w := Run(FirstStart(job, start), es);
    TimedGrantConverges(start, job.request, Init(w.tries), Last(w.tries));
  }

  // ---------------------------------------------------------------- never parked

  lemma Prepend(w: World, e: Event, es: seq<Event>)
    requires Enabled(w, e) && Legal(Apply(w, e), es)
    ensures Legal(w, [e] + es) && Run(w, [e] + es) == Run(Apply(w, e), es)
  {
    assert ([e] + es)[1..] == es;
  }

  lemma Ends(w: World)
    ensures Legal(w, []) && Run(w, []) == w
  {
  }

  // From a durably mutating record on, with `n` calls left.
  lemma {:induction false} FinishRunning(w: World, n: nat) returns (es: seq<Event>)
    requires Inv(w) && w.pc.Running? && Last(w.tries).ran + n == |PlanOf(w.job.request, Last(w.tries)).steps|
    ensures Legal(w, es) && Run(w, es).acked
    decreases n
  {
    if n > 0 {
      StepKeepsInv(w, CallPlugin);
      var rest := FinishRunning(Apply(w, CallPlugin), n - 1);
      Prepend(w, CallPlugin, rest);
      es := [CallPlugin] + rest;
    } else {
      VerifyHolds(w);
      StepKeepsInv(w, PlanDone);
      var w1 := Apply(w, PlanDone);
      var w2 := Apply(w1, Complete(true));
      Ends(Apply(w2, Send));
      Prepend(w2, Send, []);
      Prepend(w1, Complete(true), [Send] + []);
      es := [PlanDone] + ([Complete(true)] + ([Send] + []));
      Prepend(w, PlanDone, [Complete(true)] + ([Send] + []));
    }
  }

  // The check after the last call of a grant finds the player in the group.
  lemma VerifyHolds(w: World)
    requires Inv(w) && w.pc.Running? && Last(w.tries).ran == |PlanOf(w.job.request, Last(w.tries)).steps|
    ensures Enabled(w, PlanDone)
  {
    TriesSplit(w);
    if PlanOf(w.job.request, Last(w.tries)).verifyInGroup {
      WholeGrantIsInForce(AfterAll(w.start, w.job.request, Init(w.tries)), w.job.request, Last(w.tries));
    }
  }

  // From a begin that finds no record.
  lemma FinishFresh(w: World) returns (es: seq<Event>)
    requires Inv(w) && w.pc.AtBegin? && w.job.Key() !in w.memory.value
    ensures Legal(w, es) && Run(w, es).acked
  {
    StepKeepsInv(w, Begin(true));
    var w1 := Apply(w, Begin(true));
    StepKeepsInv(w1, Mark(true));
    var w2 := Apply(w1, Mark(true));
    var rest := FinishRunning(w2, |PlanOf(w2.job.request, Last(w2.tries)).steps|);
    Prepend(w1, Mark(true), rest);
    es := [Begin(true)] + ([Mark(true)] + rest);
    Prepend(w, Begin(true), [Mark(true)] + rest);
  }

  // From a begin that finds an unfinished record.
  lemma FinishUnfinished(w: World) returns (es: seq<Event>)
    requires Inv(w) && w.pc.AtBegin? && !w.pc.again && w.job.Key() in w.memory.value && !Durable(w, Completed)
    ensures Legal(w, es) && Run(w, es).acked
  {
    StepKeepsInv(w, Begin(true));
    var w1 := Apply(w, Begin(true));
    StepKeepsInv(w1, Drop(true));
    var w2 := Apply(w1, Drop(true));
    var rest := FinishFresh(w2);
    Prepend(w1, Drop(true), rest);
    es := [Begin(true)] + ([Drop(true)] + rest);
    Prepend(w, Begin(true), [Drop(true)] + rest);
  }

  // From a begin that finds a completed record.
  lemma FinishCompleted(w: World) returns (es: seq<Event>)
    requires Inv(w) && w.pc.AtBegin? && Durable(w, Completed)
    ensures Legal(w, es) && Run(w, es).acked
  {
    var w1 := Apply(w, Begin(true));
    Ends(Apply(w1, Send));
    Prepend(w1, Send, []);
    es := [Begin(true)] + ([Send] + []);
    Prepend(w, Begin(true), [Send] + []);
  }

  /**
   Unlike a delivery, a permission job is never parked: whatever its record says, an idle
   plugin with a loaded journal acknowledges it in some run that starts with the next claim.
   */
  lemma NeverParked(w: World, now: int, timedSupported: bool)
    requires Inv(w) && w.pc.Idle? && w.memory.Some?
    ensures exists es :: Legal(w, es) && es != [] && es[0] == Claim(now, now, timedSupported) && Run(w, es).acked
  {
    var claim := Claim(now, now, timedSupported);
    StepKeepsInv(w, claim);
    var w1 := Apply(w, claim);
    var rest;
    if w.job.Key() !in w.memory.value {
      rest := FinishFresh(w1);
    } else if Durable(w, Completed) {
      rest := FinishCompleted(w1);
    } else {
      rest := FinishUnfinished(w1);
    }
    Prepend(w, claim, rest);
    assert ([claim] + rest)[0] == claim;
  }

  // ---------------------------------------------------------------- a run beside the code

  lemma {:induction false} RunConcat(w: World, es: seq<Event>, fs: seq<Event>)
    requires Legal(w, es) && Legal(Run(w, es), fs)
    ensures Legal(w, es + fs) && Run(w, es + fs) == Run(Run(w, es), fs)
    decreases |es|
  {
    if es == [] {
      assert es + fs == fs;
    } else {
      RunConcat(Apply(w, es[0]), es[1..], fs);
      assert (es + fs)[0] == es[0] && (es + fs)[1..] == es[1..] + fs;
    }
  }

  /** The steps taken for one job since `first`, and the state they lead to. */
  class Trace {
    ghost const first: World
    ghost var world: World
    ghost var log: seq<Event>

    ghost predicate Valid()
      reads this
    {
      Legal(first, log) && Run(first, log) == world
    }

    ghost constructor (first: World)
      ensures Valid() && this.first == first && world == first && log == []
    {
      this.first, world, log := first, first, [];
      new;
      Ends(first);
    }

    // Takes one step. The caller has already done the real thing.
    ghost method Take(e: Event)
      requires Valid() && Enabled(world, e)
      modifies this
      ensures Valid() && world == Apply(old(world), e) && log == old(log) + [e]
    {
      Ends(Apply(world, e));
      Prepend(world, e, []);
      assert [e] + [] == [e];
      RunConcat(first, log, [e]);
      world, log := Apply(world, e), log + [e];
    }

    /** What AckMeansDone says, read off a live trace that started with the job. */
    lemma AckMeansDoneHere(job: Job, start: Membership)
      requires Valid() && first == FirstStart(job, start) && world.acked
      ensures Durable(world, Completed) && RanWhole(world)
      ensures AllFit(world.job.request, Init(world.tries)) && Fits(world.job.request, Last(world.tries)) && world.job == job
      ensures world.membership ==
              AfterAttempt(AfterAll(start, job.request, Init(world.tries)), job.request, Last(world.tries))
    {
      AckMeansDone(job, start, log);
    }
  }
}
