/**
 One claimed group membership job as code (PermissionSync.cpp, BeginJournal; PermissionsBridge.cpp,
 Execute; HeartShop.cpp, ProcessPermissionDelivery).

 The code runs on the real journal object and the shared group store. Beside it, `trace` records
 the steps of `PermissionRuns` it takes, so what is proved there of every run holds of this code.
 */
module PermissionJobs {
  import opened Journal
  import opened Fingerprints
  import opened Options
  import opened PermissionSync
  import R = PermissionRuns

  // ---------------------------------------------------------------- running a plan

  datatype ExecStatus = Success | ExecError | Unavailable | Faulted

  /**
   The shared group store, as one player's membership. `refusals` and `faults` count the calls
   and checks that went wrong, `checks` how often the membership was asked for.
   */
  class GroupStore {
    var membership: Membership
    ghost var refusals: nat
    ghost var faults: nat
    ghost var checks: nat

    constructor (m: Membership)
      ensures membership == m && refusals == 0 && faults == 0 && checks == 0
    {
      membership := m;
      refusals, faults, checks := 0, 0, 0;
    }

    // Everything asked of the store since then was carried out.
    twostate predicate WentWell()
      reads this
    {
      refusals == old(refusals) && faults == old(faults)
    }

    // A call is carried out and answers; or it fails, having or not having taken effect. A call
    // that is refused answers with any text that names no state the player is in already.
    method CallStep(step: Step, at: int) returns (carriedOut: bool, faulted: bool, message: Option<string>)
      modifies this
      ensures carriedOut ==> (membership, message) == Call(old(membership), step, at) && !faulted
      ensures membership == old(membership) || membership == Call(old(membership), step, at).0
      ensures !carriedOut && !faulted ==> message.Some? && ClassifyResult(step.kind, message) == Error
      ensures refusals == old(refusals) + if !carriedOut && !faulted then 1 else 0
      ensures faults == old(faults) + (if faulted then 1 else 0) && checks == old(checks)
    {
      carriedOut, faulted := *, *;
      var result := Call(membership, step, at);
      if carriedOut {
        membership, message, faulted := result.0, result.1, false;
        return;
      }
      var effect := *;
      if effect {
        membership := result.0;
      }
      EmptyIsError(step.kind);
      var text: string :| ClassifyResult(step.kind, Some(text)) == Error;
      message := Some(text);
      refusals, faults := refusals + (if faulted then 0 else 1), faults + if faulted then 1 else 0;
    }

    // A player found in the group is in it; the check may also find that the hold is not in effect.
    method IsPlayerInGroup(at: int) returns (answered: bool, faulted: bool, member: bool)
      modifies this`refusals, this`faults, this`checks
      ensures answered && member ==> InGroup(membership, at)
      ensures refusals == old(refusals) + if (answered && !member) || (!answered && !faulted) then 1 else 0
      ensures faults == old(faults) + (if !answered && faulted then 1 else 0) && checks == old(checks) + 1
    {
      answered, faulted, member := *, *, *;
      member := member && InGroup(membership, at);
      checks := checks + 1;
      refusals := refusals + if (answered && !member) || (!answered && !faulted) then 1 else 0;
      faults := faults + if !answered && faulted then 1 else 0;
    }
  }

  /**
   Carries a plan out, stopping at the first failed call. It succeeds exactly when the bridge is
   healthy and nothing goes wrong; then the whole plan ran, the membership is what the plan
   makes of the old one, and a grant was found in force.
   */
  method Execute(store: GroupStore, req: Request, healthy: bool, timedSupported: bool, now: int, at: int, ghost trace: R.Trace)
    returns (status: ExecStatus, ghost ran: nat)
    requires now <= at
    requires trace.Valid() && trace.world.pc.Running? && trace.world.job.request == req
    requires trace.world.membership == store.membership
    requires trace.world.tries != [] && R.Last(trace.world.tries) == Attempt(now, at, timedSupported, 0)
    modifies store, trace
    ensures ran <= |BuildPlan(req, now, timedSupported).steps|
    ensures store.refusals >= old(store.refusals) && store.faults >= old(store.faults)
    ensures status == Success <==> healthy && store.WentWell()
    ensures status == ExecError <==> store.refusals > old(store.refusals)
    ensures status == Unavailable <==> !healthy
    ensures !healthy ==> store.membership == old(store.membership)
    ensures status == Faulted <==> store.faults > old(store.faults)
    ensures status == Success && BuildPlan(req, now, timedSupported).verifyInGroup ==> store.checks == old(store.checks) + 1
    ensures status == Success ==>
              && Whole(req, Attempt(now, at, timedSupported, ran))
              && store.membership == AfterAttempt(old(store.membership), req, Attempt(now, at, timedSupported, ran))
              && (BuildPlan(req, now, timedSupported).verifyInGroup ==> InGroup(store.membership, at))
    // A try that did not succeed still left what some prefix of the plan leaves.
    ensures store.membership == AfterAttempt(old(store.membership), req, Attempt(now, at, timedSupported, ran))
    ensures trace.Valid() && old(trace.log) <= trace.log
    ensures trace.world == AfterTry(old(trace.world), ran, store.membership,
                                    if status == Success then R.AtComplete
                                    else R.AtAbort(if status == ExecError then FailJob else ReleaseJob))
  {
    var plan := BuildPlan(req, now, timedSupported);
    ran := 0;
    assert plan.steps[..0] == [];
    assert AfterTry(trace.world, 0, store.membership, R.Running) == trace.world by {
      assert R.Init(trace.world.tries) + [R.Last(trace.world.tries)] == trace.world.tries;
    }
    status := Unavailable;
    if healthy {
      status, ran := RunPlan(store, plan, req, timedSupported, now, at, trace);
    }
    if status != Success {
      trace.Take(R.GiveUp(if status == ExecError then FailJob else ReleaseJob));
    } else {
      trace.Take(R.PlanDone);
    }
  }

  // The latest try has got so far.
  ghost function AfterTry(w: R.World, ran: nat, m: Membership, pc: R.Pc): R.World
    requires w.tries != []
  {
    w.(tries := R.Init(w.tries) + [R.Last(w.tries).(ran := ran)], membership := m, pc := pc)
  }

  lemma TryAdvances(w: R.World, ran: nat, m: Membership)
    requires w.tries != [] && ran < |R.PlanOf(w.job.request, R.Last(w.tries)).steps|
    ensures var at := AfterTry(w, ran, m, R.Running);
            && R.Enabled(at, R.CallPlugin)
            && R.Apply(at, R.CallPlugin) ==
               AfterTry(w, ran + 1, Call(m, R.PlanOf(w.job.request, R.Last(w.tries)).steps[ran], R.Last(w.tries).at).0, R.Running)
  {
    var at := AfterTry(w, ran, m, R.Running);
    assert R.Last(at.tries) == R.Last(w.tries).(ran := ran) && R.Init(at.tries) == R.Init(w.tries);
  }

  // The calls of a plan, and the check that follows them.
  method RunPlan(store: GroupStore, plan: Plan, req: Request, timedSupported: bool, now: int, at: int, ghost trace: R.Trace)
    returns (status: ExecStatus, ghost ran: nat)
    requires now <= at && plan == BuildPlan(req, now, timedSupported)
    requires trace.Valid() && trace.world.pc.Running? && trace.world.job.request == req
    requires trace.world.membership == store.membership
    requires trace.world.tries != [] && R.Last(trace.world.tries) == Attempt(now, at, timedSupported, 0)
    modifies store, trace
    ensures ran <= |plan.steps| && store.membership == RunSteps(old(store.membership), plan.steps[..ran], at)
    ensures status == Success ==> ran == |plan.steps| && (plan.verifyInGroup ==> InGroup(store.membership, at))
    ensures store.refusals >= old(store.refusals) && store.faults >= old(store.faults)
    ensures status == Success <==> store.WentWell()
    ensures status == ExecError <==> store.refusals > old(store.refusals)
    ensures status == Faulted <==> store.faults > old(store.faults)
    ensures status == Success && plan.verifyInGroup ==> store.checks == old(store.checks) + 1
    ensures trace.Valid() && old(trace.log) <= trace.log
    ensures trace.world == AfterTry(old(trace.world), ran, store.membership, R.Running)
  {
    if plan.noOp {
      ran := 0;
      assert plan.steps[..0] == [] && R.Init(trace.world.tries) + [R.Last(trace.world.tries)] == trace.world.tries;
      return Success, ran;
    }
    status, ran := RunCalls(store, plan, req, timedSupported, now, at, trace);
    assert plan.steps[..|plan.steps|] == plan.steps;
    if status == Success && plan.verifyInGroup {
      var answered, faulted, member := store.IsPlayerInGroup(at);
      if !answered {
        return if faulted then Faulted else ExecError, ran;
      }
      if !member {
        return ExecError, ran;
      }
    }
  }

  // The calls, in order, up to the first that goes wrong.
  method RunCalls(store: GroupStore, plan: Plan, req: Request, timedSupported: bool, now: int, at: int, ghost trace: R.Trace)
    returns (status: ExecStatus, ghost ran: nat)
    requires now <= at && plan == BuildPlan(req, now, timedSupported)
    requires trace.Valid() && trace.world.pc.Running? && trace.world.job.request == req
    requires trace.world.membership == store.membership
    requires trace.world.tries != [] && R.Last(trace.world.tries) == Attempt(now, at, timedSupported, 0)
    modifies store, trace
    ensures ran <= |plan.steps| && store.membership == RunSteps(old(store.membership), plan.steps[..ran], at)
    ensures status == Success || status == ExecError || status == Faulted
    ensures status == Success ==> ran == |plan.steps| && store.WentWell()
    ensures status == ExecError ==> store.refusals > old(store.refusals) && store.faults == old(store.faults)
    ensures status == Faulted ==> store.refusals == old(store.refusals) && store.faults > old(store.faults)
    ensures store.checks == old(store.checks)
    ensures trace.Valid() && old(trace.log) <= trace.log
    ensures trace.world == AfterTry(old(trace.world), ran, store.membership, R.Running)
  {
    ran, status := 0, Success;
    ghost var w := trace.world;
    assert plan.steps[..0] == [] && R.Init(w.tries) + [R.Last(w.tries)] == w.tries;
    for i := 0 to |plan.steps|
      invariant ran == i && store.membership == RunSteps(old(store.membership), plan.steps[..i], at)
      invariant store.WentWell() && store.checks == old(store.checks)
      invariant trace.Valid() && old(trace.log) <= trace.log && trace.world == AfterTry(w, ran, store.membership, R.Running)
    {
      ghost var before := store.membership;
      var carriedOut, faulted, message := store.CallStep(plan.steps[i], at);
      CallSucceeds(old(store.membership), plan.steps, i, at);
      TryAdvances(w, i, before);
      AnswersAreSuccess(before, plan.steps[i], at);
      if carriedOut || store.membership != before {
        trace.Take(R.CallPlugin);
        ran := i + 1;
      }
      if faulted {
        return Faulted, ran;
      }
      if ClassifyResult(plan.steps[i].kind, message) == Error {
        return ExecError, ran;
      }
    }
  }

  lemma CallSucceeds(m: Membership, steps: seq<Step>, i: nat, at: int)
    requires i < |steps|
    ensures RunSteps(m, steps[..i + 1], at) == Call(RunSteps(m, steps[..i], at), steps[i], at).0
  {
    assert steps[..i + 1] == steps[..i] + [steps[i]];
    RunStepsAppend(m, steps[..i], steps[i], at);
  }

  // ---------------------------------------------------------------- journal handshake

  datatype JournalDecision = Run | AcknowledgeOnly | FailPayloadMismatch | ReleaseLease

  predicate Unfinished(s: Store, key: string, fingerprint: string) {
    key !in s.memory || (s.memory[key].fingerprint == fingerprint && s.memory[key].phase != Completed)
  }

  // The step system has the journal's contents.
  ghost predicate Mirrors(w: R.World, journal: DeliveryJournal)
    reads journal
  {
    w.memory == Some(journal.deliveries) && w.disk == journal.disk
  }

  ghost predicate IsJob(job: R.Job, deliveryType: string, deliveryId: string, payload: bytes) {
    job.deliveryType == deliveryType && job.deliveryKey == deliveryId && job.payload == payload
  }

  ghost predicate SameButJournal(w: R.World, w': R.World) {
    w'.job == w.job && w'.start == w.start && w'.membership == w.membership && w'.acked == w.acked
  }

  /**
   The handshake. An unfinished record is run again exactly when every write succeeds, never
   parked; a run only ever starts from a durably mutating record; a completed record of the
   same payload is acknowledged and any record of another one failed, whatever writing does.
   */
  method BeginJournal(journal: DeliveryJournal, deliveryType: string, deliveryId: string, payload: bytes, ghost trace: R.Trace)
    returns (decision: JournalDecision, ghost allWritten: bool)
    requires journal.Snapshot().InSync()
    requires trace.Valid() && Mirrors(trace.world, journal) && trace.world.pc.AtBegin? && !trace.world.pc.again
    requires IsJob(trace.world.job, deliveryType, deliveryId, payload)
    modifies journal, trace
    ensures journal.Snapshot().InSync()
    ensures OthersKept(old(journal.deliveries), journal.deliveries, MakeKey(deliveryType, deliveryId))
    ensures journal.failures >= old(journal.failures) && (allWritten <==> journal.failures == old(journal.failures))
    ensures decision == Run || decision == ReleaseLease <==>
            Unfinished(old(journal.Snapshot()), MakeKey(deliveryType, deliveryId), FingerprintOf(payload))
    ensures decision == ReleaseLease <==> !allWritten
    ensures decision == Run ==>
              && MakeKey(deliveryType, deliveryId) in journal.deliveries
              && journal.deliveries[MakeKey(deliveryType, deliveryId)] == Fresh(deliveryType, deliveryId, payload).(phase := Mutating)
    ensures decision == AcknowledgeOnly ==>
              && journal.deliveries == old(journal.deliveries)
              && MakeKey(deliveryType, deliveryId) in journal.deliveries
              && journal.deliveries[MakeKey(deliveryType, deliveryId)].phase == Completed
              && journal.deliveries[MakeKey(deliveryType, deliveryId)].fingerprint == FingerprintOf(payload)
    ensures decision == FailPayloadMismatch ==>
              && journal.deliveries == old(journal.deliveries)
              && MakeKey(deliveryType, deliveryId) in journal.deliveries
              && journal.deliveries[MakeKey(deliveryType, deliveryId)].fingerprint != FingerprintOf(payload)
    ensures trace.Valid() && old(trace.log) <= trace.log && Mirrors(trace.world, journal)
    ensures SameButJournal(old(trace.world), trace.world)
    ensures decision == Run ==>
              trace.world.pc == R.Running && trace.world.tries == old(trace.world).tries + [old(trace.world).pc.plan.(ran := 0)]
    ensures decision != Run ==>
              && trace.world.tries == old(trace.world).tries
              && trace.world.pc == R.AtReply(match decision
                                             case AcknowledgeOnly => AckJob
                                             case FailPayloadMismatch => FailJob
                                             case _ => ReleaseJob)
  {
    var begin;
    begin, allWritten := BeginOrRenew(journal, deliveryType, deliveryId, payload, trace);
    match begin {
      case Started =>
      case AlreadyCompleted => return AcknowledgeOnly, allWritten;
      case PayloadMismatch => return FailPayloadMismatch, allWritten;
      case UncertainPrepared => return ReleaseLease, allWritten;
      case PersistenceError => return ReleaseLease, allWritten;
    }
    ghost var begun := journal.deliveries;
    var marked := MarkOrDrop(journal, deliveryType, deliveryId, trace);
    allWritten := marked;
    OthersKeptTransitive(old(journal.deliveries), begun, journal.deliveries, MakeKey(deliveryType, deliveryId));
    if !marked {
      return ReleaseLease, allWritten;
    }
    return Run, allWritten;
  }

  // Begins a record; one that was left unfinished is dropped and begun again.
  method BeginOrRenew(journal: DeliveryJournal, deliveryType: string, deliveryId: string, payload: bytes, ghost trace: R.Trace)
    returns (begin: BeginResult, ghost allWritten: bool)
    requires journal.Snapshot().InSync()
    requires trace.Valid() && Mirrors(trace.world, journal) && trace.world.pc.AtBegin? && !trace.world.pc.again
    requires IsJob(trace.world.job, deliveryType, deliveryId, payload)
    modifies journal, trace
    ensures journal.Snapshot().InSync()
    ensures OthersKept(old(journal.deliveries), journal.deliveries, MakeKey(deliveryType, deliveryId))
    ensures journal.failures >= old(journal.failures) && (allWritten <==> journal.failures == old(journal.failures))
    ensures begin == AlreadyCompleted || begin == PayloadMismatch <==>
            !Unfinished(old(journal.Snapshot()), MakeKey(deliveryType, deliveryId), FingerprintOf(payload))
    ensures begin == Started ==>
              && allWritten
              && MakeKey(deliveryType, deliveryId) in journal.deliveries
              && journal.deliveries[MakeKey(deliveryType, deliveryId)] == Fresh(deliveryType, deliveryId, payload)
    ensures begin == AlreadyCompleted || begin == PayloadMismatch ==>
              && journal.deliveries == old(journal.deliveries) && MakeKey(deliveryType, deliveryId) in journal.deliveries
              && (journal.deliveries[MakeKey(deliveryType, deliveryId)].fingerprint == FingerprintOf(payload) <==> begin == AlreadyCompleted)
              && (begin == AlreadyCompleted ==> journal.deliveries[MakeKey(deliveryType, deliveryId)].phase == Completed)
    ensures begin == UncertainPrepared || begin == PersistenceError <==> !allWritten
    ensures trace.Valid() && old(trace.log) <= trace.log && Mirrors(trace.world, journal)
    ensures SameButJournal(old(trace.world), trace.world) && trace.world.tries == old(trace.world).tries
    ensures trace.world.pc == match begin
                              case Started => R.AtMark(old(trace.world).pc.plan)
                              case AlreadyCompleted => R.AtReply(AckJob)
                              case PayloadMismatch => R.AtReply(FailJob)
                              case _ => R.AtReply(ReleaseJob)
  {
    ghost var written;
    begin, written := journal.Begin(deliveryType, deliveryId, payload);
    trace.Take(R.Begin(written));
    allWritten := begin != PersistenceError;
    if begin == UncertainPrepared {
      begin, allWritten := Renew(journal, deliveryType, deliveryId, payload, trace);
    }
  }

  method Renew(journal: DeliveryJournal, deliveryType: string, deliveryId: string, payload: bytes, ghost trace: R.Trace)
    returns (begin: BeginResult, ghost allWritten: bool)
    requires journal.Snapshot().InSync()
    requires trace.Valid() && Mirrors(trace.world, journal) && trace.world.pc.AtDrop?
    requires IsJob(trace.world.job, deliveryType, deliveryId, payload)
    requires MakeKey(deliveryType, deliveryId) in journal.deliveries
    requires journal.deliveries[MakeKey(deliveryType, deliveryId)].phase != Completed
    modifies journal, trace
    ensures journal.Snapshot().InSync()
    ensures OthersKept(old(journal.deliveries), journal.deliveries, MakeKey(deliveryType, deliveryId))
    ensures begin == Started || begin == UncertainPrepared || begin == PersistenceError
    ensures allWritten <==> begin == Started
    ensures journal.failures >= old(journal.failures) && (allWritten <==> journal.failures == old(journal.failures))
    ensures begin == Started ==>
              MakeKey(deliveryType, deliveryId) in journal.deliveries &&
              journal.deliveries[MakeKey(deliveryType, deliveryId)] == Fresh(deliveryType, deliveryId, payload)
    ensures trace.Valid() && old(trace.log) <= trace.log && Mirrors(trace.world, journal)
    ensures SameButJournal(old(trace.world), trace.world) && trace.world.tries == old(trace.world).tries
    ensures trace.world.pc == if begin == Started then R.AtMark(old(trace.world).pc.plan) else R.AtReply(ReleaseJob)
  {
    ghost var written;
    var aborted;
    aborted, written := journal.Abort(deliveryType, deliveryId);
    trace.Take(R.Drop(written));
    if !aborted {
      return UncertainPrepared, false;
    }
    begin, written := journal.Begin(deliveryType, deliveryId, payload);
    trace.Take(R.Begin(written));
    allWritten := begin != PersistenceError;
  }

  // Marks a begun record, or drops it again.
  method MarkOrDrop(journal: DeliveryJournal, deliveryType: string, deliveryId: string, ghost trace: R.Trace)
    returns (marked: bool)
    requires journal.Snapshot().InSync()
    requires MakeKey(deliveryType, deliveryId) in journal.deliveries
    requires journal.deliveries[MakeKey(deliveryType, deliveryId)].phase == Prepared
    requires trace.Valid() && Mirrors(trace.world, journal) && trace.world.pc.AtMark?
    requires IsJob(trace.world.job, deliveryType, deliveryId, trace.world.job.payload)
    modifies journal, trace
    ensures journal.Snapshot().InSync()
    ensures OthersKept(old(journal.deliveries), journal.deliveries, MakeKey(deliveryType, deliveryId))
    ensures journal.failures >= old(journal.failures) && (marked <==> journal.failures == old(journal.failures))
    ensures marked ==>
              && MakeKey(deliveryType, deliveryId) in journal.deliveries
              && journal.deliveries[MakeKey(deliveryType, deliveryId)] ==
                 old(journal.deliveries)[MakeKey(deliveryType, deliveryId)].(phase := Mutating)
    ensures trace.Valid() && old(trace.log) <= trace.log && Mirrors(trace.world, journal)
    ensures SameButJournal(old(trace.world), trace.world)
    ensures trace.world.pc == if marked then R.Running else R.AtReply(ReleaseJob)
    ensures trace.world.tries == old(trace.world).tries + if marked then [old(trace.world).pc.plan.(ran := 0)] else []
  {
    ghost var written;
    marked, written := journal.MarkMutating(deliveryType, deliveryId);
    trace.Take(R.Mark(written));
    if !marked {
      var aborted;
      aborted, written := journal.Abort(deliveryType, deliveryId);
      trace.Take(R.Abort(written));
    }
  }

  // What a claimed permission job looks like once its payload was parsed and checked.
  datatype PermissionJob = PermissionJob(deliveryType: string, deliveryKey: string, payload: bytes,
                                         request: Option<Request>, groupAllowed: bool) {
    function Key(): string {
      MakeKey(deliveryType, deliveryKey)
    }
  }

  ghost predicate CompletedIn(deliveries: Deliveries, key: string) {
    key in deliveries && deliveries[key].phase == Completed
  }

  // Carries a job with a mutating record out and settles the record.
  method RunJob(journal: DeliveryJournal, store: GroupStore, job: PermissionJob, request: Request,
                healthy: bool, timedSupported: bool, now: int, at: int, ghost trace: R.Trace)
    returns (reply: JobReply, ghost ran: nat)
    requires journal.Snapshot().InSync() && job.Key() in journal.deliveries && now <= at
    requires journal.deliveries[job.Key()].phase != Completed
    requires trace.Valid() && Mirrors(trace.world, journal) && trace.world.pc.Running?
    requires IsJob(trace.world.job, job.deliveryType, job.deliveryKey, job.payload) && trace.world.job.request == request
    requires trace.world.membership == store.membership
    requires trace.world.tries != [] && R.Last(trace.world.tries) == Attempt(now, at, timedSupported, 0)
    modifies journal, store, trace
    ensures journal.Snapshot().InSync()
    ensures OthersKept(old(journal.deliveries), journal.deliveries, job.Key())
    ensures Fits(request, Attempt(now, at, timedSupported, ran))
    ensures store.membership == AfterAttempt(old(store.membership), request, Attempt(now, at, timedSupported, ran))
    ensures reply == AckJob ==> Whole(request, Attempt(now, at, timedSupported, ran)) && CompletedIn(journal.deliveries, job.Key())
    ensures journal.failures >= old(journal.failures) && store.refusals >= old(store.refusals) && store.faults >= old(store.faults)
    ensures reply == FailJob <==> store.refusals > old(store.refusals)
    ensures reply == AckJob <==> healthy && store.WentWell() && journal.failures == old(journal.failures)
    ensures !healthy ==> store.membership == old(store.membership)
    ensures reply != AckJob && journal.failures == old(journal.failures) ==> job.Key() !in journal.deliveries
    ensures trace.Valid() && old(trace.log) <= trace.log && Mirrors(trace.world, journal)
    ensures trace.world.membership == store.membership && trace.world.pc == R.AtReply(reply)
    ensures trace.world.job == old(trace.world).job && trace.world.start == old(trace.world).start
    ensures trace.world.acked == old(trace.world).acked
  {
    ghost var written;
    var status, done;
    status, ran := Execute(store, request, healthy, timedSupported, now, at, trace);
    if status == Success {
      done, written := journal.Complete(job.deliveryType, job.deliveryKey);
      trace.Take(R.Complete(written));
      return if done then AckJob else ReleaseJob, ran;
    }
    done, written := journal.Abort(job.deliveryType, job.deliveryKey);
    trace.Take(R.Abort(written));
    return if status == ExecError then FailJob else ReleaseJob, ran;
  }

  // The answer to a job that may run here: a record settled earlier answers by itself; else it is
  // how the calls and the writes went.
  twostate function ReplyHere(journal: DeliveryJournal, store: GroupStore, job: PermissionJob, healthy: bool): JobReply
    reads journal, store
  {
    if !Unfinished(old(journal.Snapshot()), job.Key(), FingerprintOf(job.payload)) then
      if old(journal.deliveries)[job.Key()].fingerprint == FingerprintOf(job.payload) then AckJob else FailJob
    else if store.refusals > old(store.refusals) then FailJob
    else if healthy && store.WentWell() && journal.failures == old(journal.failures) then AckJob
    else ReleaseJob
  }

  /**
   One claimed permission job. The backend is told "complete" only when the record is durably
   completed, and then either it was before or this very call carried the whole plan out.
   Records of other keys, and the file's agreement with memory, are untouched.
   */
  method ProcessPermissionDelivery(journal: DeliveryJournal?, store: GroupStore, job: PermissionJob,
                                   available: bool, healthy: bool, timedSupported: bool, now: int, at: int,
                                   ghost trace: R.Trace)
    returns (reply: JobReply, ghost ran: nat)
    requires journal != null ==> journal.Snapshot().InSync()
    requires now <= at
    requires trace.Valid() && trace.world.pc.Idle? && trace.world.membership == store.membership
    requires if journal == null then trace.world.memory == None else Mirrors(trace.world, journal)
    requires IsJob(trace.world.job, job.deliveryType, job.deliveryKey, job.payload)
    requires job.request.Some? ==> trace.world.job.request == job.request.value
    modifies journal, store, trace
    ensures journal != null ==> journal.failures >= old(journal.failures)
    ensures store.refusals >= old(store.refusals) && store.faults >= old(store.faults)
    ensures journal != null ==>
              journal.Snapshot().InSync() && OthersKept(old(journal.deliveries), journal.deliveries, job.Key())
    ensures reply == AckJob ==>
              && journal != null && job.request.Some? && job.groupAllowed && CompletedIn(journal.deliveries, job.Key())
              && if CompletedIn(old(journal.deliveries), job.Key()) then store.membership == old(store.membership)
                 else Whole(job.request.value, Attempt(now, at, timedSupported, ran))
    ensures job.request.Some? ==>
              && Fits(job.request.value, Attempt(now, at, timedSupported, ran))
              && store.membership == AfterAttempt(old(store.membership), job.request.value, Attempt(now, at, timedSupported, ran))
    ensures journal != null && !Unfinished(old(journal.Snapshot()), job.Key(), FingerprintOf(job.payload)) ==>
              store.membership == old(store.membership)
    ensures job.request.None? || !job.groupAllowed || journal == null || !available || !healthy ==> store.membership == old(store.membership)
    ensures reply == if journal == null || !available then ReleaseJob
                     else if job.request.None? then FailJob
                     else if !job.groupAllowed then ReleaseJob
                     else ReplyHere(journal, store, job, healthy)
    ensures journal != null && reply != AckJob && journal.failures == old(journal.failures) &&
            job.request.Some? && job.groupAllowed && available && Unfinished(old(journal.Snapshot()), job.Key(), FingerprintOf(job.payload)) ==>
              job.Key() !in journal.deliveries
    // The steps taken are a run of the protocol; the backend is told so exactly when they end in an acknowledgement.
    ensures trace.Valid() && old(trace.log) <= trace.log && trace.world.pc.Idle?
    ensures trace.world.membership == store.membership && trace.world.job == old(trace.world).job
    ensures if journal == null then trace.world.memory == None else Mirrors(trace.world, journal)
    ensures trace.world.acked == (old(trace.world).acked || reply == AckJob)
  {
    ran := 0;
    assert job.request.Some? ==> BuildPlan(job.request.value, now, timedSupported).steps[..0] == [];
    if journal == null || !available {
      return ReleaseJob, ran;
    }
    if job.request.None? {
      return FailJob, ran;
    }
    if !job.groupAllowed {
      return ReleaseJob, ran;
    }
    reply, ran := CarryOut(journal, store, job, job.request.value, healthy, timedSupported, now, at, trace);
  }

  // The same, for a job that may run here.
  method CarryOut(journal: DeliveryJournal, store: GroupStore, job: PermissionJob, request: Request,
                  healthy: bool, timedSupported: bool, now: int, at: int, ghost trace: R.Trace)
    returns (reply: JobReply, ghost ran: nat)
    requires journal.Snapshot().InSync() && now <= at
    requires trace.Valid() && trace.world.pc.Idle? && trace.world.membership == store.membership && Mirrors(trace.world, journal)
    requires IsJob(trace.world.job, job.deliveryType, job.deliveryKey, job.payload) && trace.world.job.request == request
    modifies journal, store, trace
    ensures journal.Snapshot().InSync() && OthersKept(old(journal.deliveries), journal.deliveries, job.Key())
    ensures Fits(request, Attempt(now, at, timedSupported, ran))
    ensures store.membership == AfterAttempt(old(store.membership), request, Attempt(now, at, timedSupported, ran))
    ensures reply == AckJob ==>
              && CompletedIn(journal.deliveries, job.Key())
              && if CompletedIn(old(journal.deliveries), job.Key()) then store.membership == old(store.membership)
                 else Whole(request, Attempt(now, at, timedSupported, ran))
    ensures journal.failures >= old(journal.failures) && store.refusals >= old(store.refusals) && store.faults >= old(store.faults)
    ensures reply == ReplyHere(journal, store, job, healthy)
    ensures !healthy ==> store.membership == old(store.membership)
    ensures !Unfinished(old(journal.Snapshot()), job.Key(), FingerprintOf(job.payload)) ==> store.membership == old(store.membership)
    ensures reply != AckJob && journal.failures == old(journal.failures) && Unfinished(old(journal.Snapshot()), job.Key(), FingerprintOf(job.payload)) ==>
              job.Key() !in journal.deliveries
    ensures trace.Valid() && old(trace.log) <= trace.log && trace.world.pc.Idle? && Mirrors(trace.world, journal)
    ensures trace.world.membership == store.membership && trace.world.job == old(trace.world).job
    ensures trace.world.acked == (old(trace.world).acked || reply == AckJob)
  {
    ran := 0;
    assert BuildPlan(request, now, timedSupported).steps[..0] == [];
    ghost var written;
    var decision;
    trace.Take(R.Claim(now, at, timedSupported));
    decision, written := BeginJournal(journal, job.deliveryType, job.deliveryKey, job.payload, trace);
    ghost var begun := journal.deliveries;
    match decision {
      case Run =>
        reply, ran := RunJob(journal, store, job, request, healthy, timedSupported, now, at, trace);
        OthersKeptTransitive(old(journal.deliveries), begun, journal.deliveries, job.Key());
      case AcknowledgeOnly => reply := AckJob;
      case FailPayloadMismatch => reply := FailJob;
      case ReleaseLease => reply := ReleaseJob;
    }
    trace.Take(R.Send);
  }
}
