/**
 The poll loop itself (HeartShop.cpp, PollPendingOrders with PrepareDelivery, CompleteDelivery,
 AbortDelivery and the start-up of the journal in Load).

 The code runs on the real journal object and the real give routines. Beside it, `log` records
 every protocol step taken since the first start, and `world` is the protocol state those steps
 lead to; each method is proved to take only legal steps and to keep the object and the
 protocol state the same. What Delivery proves of every run therefore holds of this code.
 */
module HeartShop {
  import opened Journal
  import opened Delivery
  import opened Polls
  import CatalogDino
  import ItemDelivery
  import PermissionJobs
  import PermissionRuns
  import PermissionSync
  import opened Options

  // Only steps of the job at hand were added.
  ghost predicate Extends(before: seq<Event>, after: seq<Event>) {
    before <= after && forall i :: |before| <= i < |after| ==> WithinJob(after[i])
  }

  predicate WithinJob(e: Event) {
    !e.Claim? && !e.OtherProtocol? && !e.Crash? && !e.Start?
  }

  ghost function Engines(rounds: seq<Round>): (engines: set<ItemDelivery.Engine>)
    ensures forall i :: 0 <= i < |rounds| ==> rounds[i].engine in engines
  {
    if rounds == [] then {}
    else
      assert forall i :: 0 < i < |rounds| ==> rounds[i] == rounds[1..][i - 1];
      {rounds[0].engine} + Engines(rounds[1..])
  }

  ghost function Games(rounds: seq<Round>): (games: set<CatalogDino.Game>)
    ensures forall i :: 0 <= i < |rounds| ==> rounds[i].game in games
  {
    if rounds == [] then {}
    else
      assert forall i :: 0 < i < |rounds| ==> rounds[i] == rounds[1..][i - 1];
      {rounds[0].game} + Games(rounds[1..])
  }

  // Each entry has a game of its own to report on.
  predicate Apart(rounds: seq<Round>) {
    forall i, j :: 0 <= i < j < |rounds| ==> rounds[i].engine != rounds[j].engine && rounds[i].game != rounds[j].game
  }

  // What the game reports for the entries handled; nothing was asked of it for the others.
  ghost predicate Played(rounds: seq<Round>, reports: seq<Report>)
    reads Engines(rounds), Games(rounds)
  {
    forall i :: 0 <= i < |rounds| ==> if i < |reports| then reports[i] == rounds[i].Reported() else rounds[i].Untouched()
  }

  /** One process of the plugin. `journal` is null when it could not be loaded. */
  class Plugin {
    var journal: DeliveryJournal?
    var sent: seq<Message>
    ghost var world: World
    ghost var log: seq<Event>

    // The object agrees with the protocol state, which the logged steps lead to.
    ghost predicate Agrees()
      reads this, journal
    {
      && Legal(FirstStart(), log) && Run(FirstStart(), log) == world
      && (journal == null ==> world.memory == None)
      && (journal != null ==> world.memory == Some(journal.deliveries) && world.disk == journal.disk)
    }

    ghost predicate Valid()
      reads this, journal
    {
      Agrees() && world.pc.Idle?
    }

    // Takes one protocol step. The caller has already done the real thing.
    ghost method Take(e: Event)
      requires Legal(FirstStart(), log) && Run(FirstStart(), log) == world && Enabled(world, e)
      modifies this`world, this`log
      ensures world == Apply(old(world), e) && log == old(log) + [e]
      ensures Legal(FirstStart(), log) && Run(FirstStart(), log) == world
    {
      OneStep(world, e);
      RunConcat(FirstStart(), log, [e]);
      world, log := Apply(world, e), log + [e];
    }

    /** Starts a process after any earlier run, over the file that run left behind. */
    constructor (file: Option<Deliveries>, readable: bool, ghost before: seq<Event>)
      requires Legal(FirstStart(), before) && Run(FirstStart(), before).pc.Down?
      requires file == Run(FirstStart(), before).disk
      ensures Valid() && log == before + [Start(readable, journal != null)] && sent == []
      ensures journal != null ==> fresh(journal)
      ensures file.Some? ==> (journal != null <==> readable) && (journal != null ==> journal.deliveries == file.value)
      ensures file.None? && journal != null ==> journal.deliveries == map[]
    {
      journal := null;
      sent := [];
      world, log := Run(FirstStart(), before), before;
      new;
      RunKeepsInv(FirstStart(), before);
      var loading := new DeliveryJournal(file);
      var ok := loading.Load(readable);
      Take(Start(readable, ok));
      if ok {
        journal := loading;
      }
    }

    // Tells the backend how the job ended. The model's reply and the code's must be the same.
    method SendToBackend(job: Job, reply: Reply)
      requires Agrees() && world.pc == AtReply(job, reply)
      modifies this`world, this`log, this`sent
      ensures Valid() && log == old(log) + [Send]
      ensures sent == old(sent) + [Message(job.deliveryType, job.deliveryKey, reply)]
      ensures reply == Ack ==> job.Key() in world.hist.acked
    {
      sent := sent + [Message(job.deliveryType, job.deliveryKey, reply)];
      Take(Send);
    }

    // Hands out units the give routine really gave.
    ghost method HandOuts(n: nat)
      requires Agrees() && world.pc.AtGive? && world.pc.out == 0
      requires n > 0 ==> Givable(world.pc.job.deliveryType) && n <= world.pc.job.units
      modifies this`world, this`log
      ensures Agrees() && world.pc == AtGive(old(world).pc.job, n)
      ensures Extends(old(log), log) && world.memory == old(world).memory && world.disk == old(world).disk
    {
      var job := world.pc.job;
      for i := 0 to n
        invariant Agrees() && world.pc == AtGive(job, i)
        invariant Extends(old(log), log) && world.memory == old(world).memory && world.disk == old(world).disk
      {
        Take(HandOut);
      }
    }

    // Where a give leaves the protocol.
    ghost function AfterGive(job: Job, end: GiveEnd): Pc {
      match end
      case GaveAll => AtComplete(job)
      case GaveNothing(reply) => AtAbort(job, reply)
      case Uncertain => AtReply(job, Release)
    }

    /** The give branch for one job: it ends as the game's answers say, and what was really handed out is logged. */
    method Give(claimed: Claimed, maxStack: ItemDelivery.StackSizes, round: Round)
      returns (spawnSuccess: bool, deferDelivery: bool, uncertain: bool)
      requires claimed.Deliver? && claimed.Valid() && round.Untouched()
      requires Agrees() && world.pc == AtGive(claimed.job, 0)
      modifies this`world, this`log, round.engine, round.game
      ensures Agrees() && Extends(old(log), log) && world.memory == old(world).memory && world.disk == old(world).disk
      ensures spawnSuccess <==> EndOf(claimed, maxStack, round, round.Reported()) == GaveAll
      ensures uncertain <==> EndOf(claimed, maxStack, round, round.Reported()) == Uncertain
      ensures deferDelivery <==> EndOf(claimed, maxStack, round, round.Reported()) == GaveNothing(Release)
      ensures world.pc == AfterGive(claimed.job, EndOf(claimed, maxStack, round, round.Reported()))
      ensures AskedAsDue(claimed, maxStack, round.engine.asks, spawnSuccess)
    {
      var job := claimed.job;
      spawnSuccess, deferDelivery, uncertain := false, false, false;
      if round.playerBusy {
        deferDelivery := true;
      } else if job.deliveryType == "order" {
        if claimed.content.Items? {
          spawnSuccess, deferDelivery, uncertain := GiveOrder(claimed, maxStack, round);
          return;
        }
      } else if job.deliveryType == "dino_marketplace" {
        spawnSuccess := round.spawned;
        HandOuts(if spawnSuccess then 1 else 0);
      } else if job.deliveryType == "dino_catalog" && claimed.content.Dino? {
        spawnSuccess, deferDelivery := GiveCatalogDino(job, round);
      }
      Take(EndGive(if spawnSuccess then GaveAll else GaveNothing(if deferDelivery then Release else Fail)));
    }

    method GiveOrder(claimed: Claimed, maxStack: ItemDelivery.StackSizes, round: Round)
      returns (spawnSuccess: bool, deferDelivery: bool, uncertain: bool)
      requires claimed.Deliver? && claimed.Valid() && claimed.content.Items? && claimed.job.deliveryType == "order"
      requires Agrees() && world.pc == AtGive(claimed.job, 0) && round.Untouched() && !round.playerBusy
      modifies this`world, this`log, round.engine
      ensures Agrees() && Extends(old(log), log) && world.memory == old(world).memory && world.disk == old(world).disk
      ensures spawnSuccess <==> EndOf(claimed, maxStack, round, round.Reported()) == GaveAll
      ensures uncertain <==> EndOf(claimed, maxStack, round, round.Reported()) == Uncertain
      ensures deferDelivery <==> EndOf(claimed, maxStack, round, round.Reported()) == GaveNothing(Release)
      ensures world.pc == AfterGive(claimed.job, EndOf(claimed, maxStack, round, round.Reported()))
      ensures AskedAsDue(claimed, maxStack, round.engine.asks, spawnSuccess)
    {
      var given := ItemDelivery.GiveItemsToPlayer(round.engine, claimed.content.lines, maxStack, round.free, round.preflight);
      HandOuts(round.engine.given);
      spawnSuccess := given.status == ItemDelivery.Delivered;
      deferDelivery := given.status == ItemDelivery.GiveDeferred;
      uncertain := given.status == ItemDelivery.PartiallyDelivered;
      Take(EndGive(if spawnSuccess then GaveAll
                   else if uncertain then Uncertain
                   else GaveNothing(if deferDelivery then Release else Fail)));
    }

    method GiveCatalogDino(job: Job, round: Round) returns (spawnSuccess: bool, deferDelivery: bool)
      requires Agrees() && world.pc == AtGive(job, 0) && Givable(job.deliveryType) && job.units == 1 && round.Untouched()
      modifies this`world, this`log, round.game
      ensures Agrees() && Extends(old(log), log) && world.memory == old(world).memory && world.disk == old(world).disk
      ensures var outcome := CatalogDino.OutcomeOf(round.cryopod, round.game.failed);
              && (spawnSuccess <==> outcome == CatalogDino.DeliveredInCryopod || outcome == CatalogDino.DeliveredAsLiveTame)
              && (deferDelivery <==> outcome == CatalogDino.Deferred)
      ensures world.pc == AtGive(job, if spawnSuccess then 1 else 0)
    {
      var outcome := CatalogDino.RunCryopodDelivery(round.game, round.cryopod);
      spawnSuccess := outcome == CatalogDino.DeliveredInCryopod || outcome == CatalogDino.DeliveredAsLiveTame;
      deferDelivery := outcome == CatalogDino.Deferred;
      HandOuts(CatalogDino.Reachable(round.game.assets));
    }

    ghost function Records(): Option<Deliveries>
      reads this, journal
    {
      if journal == null then None else Some(journal.deliveries)
    }

    ghost function Failures(): nat
      reads this, journal
    {
      if journal == null then 0 else journal.failures
    }

    ghost function Now(store: PermissionJobs.GroupStore): View
      reads this, journal, store
    {
      View(log, sent, Records(), store.membership, Failures(), store.refusals, store.faults)
    }

    // Records the claim in the journal; the returned reply is for the jobs that end here.
    method PrepareDelivery(job: Job) returns (execute: bool, reply: Reply)
      requires Agrees() && world.pc == AtBegin(job)
      modifies this`world, this`log, journal
      ensures Agrees() && Extends(old(log), log)
      ensures world.pc == if execute then AtMark(job) else AtReply(job, reply)
      ensures execute <==> journal != null && job.Key() !in old(journal.deliveries) && Failures() == old(Failures())
      ensures execute ==> journal.deliveries == old(journal.deliveries)[job.Key() := NewRecord(job)]
      ensures !execute ==> Records() == old(Records())
      ensures !execute && journal != null && job.Key() in old(journal.deliveries) ==>
                reply == DueReply(Some(old(journal.deliveries)), Deliver(job, Rejected, true), Uncertain)
      ensures !execute && (journal == null || job.Key() !in old(journal.deliveries)) ==> reply == Release
      ensures Failures() == old(Failures()) + if journal != null && job.Key() !in old(journal.deliveries) && !execute then 1 else 0
    {
      if journal == null {
        Take(Begin(false));
        return false, Release;
      }
      var result;
      ghost var persisted;
      result, persisted := journal.Begin(job.deliveryType, job.deliveryKey, job.payload);
      Take(Begin(persisted));
      match result {
        case Started => return true, Release;
        case AlreadyCompleted => return false, Ack;
        case UncertainPrepared => return false, Release;
        case PayloadMismatch => return false, Fail;
        case PersistenceError => return false, Release;
      }
    }

    // Marks a begun job as mutating; false means the game must not be touched.
    method MarkMutating(job: Job) returns (ok: bool)
      requires Agrees() && world.pc == AtMark(job) && journal != null && job.Key() in journal.deliveries
      requires journal.deliveries[job.Key()].phase == Prepared
      modifies this`world, this`log, journal
      ensures Agrees() && Extends(old(log), log)
      ensures world.pc == if ok then AtGive(job, 0) else AtReply(job, Release)
      ensures Failures() == old(Failures()) + if ok then 0 else 1
      ensures journal.deliveries ==
              if ok then old(journal.deliveries)[job.Key() := old(journal.deliveries)[job.Key()].(phase := Mutating)]
              else old(journal.deliveries)
    {
      ok := false;
      ghost var persisted := false;
      if journal != null {
        ok, persisted := journal.MarkMutating(job.deliveryType, job.deliveryKey);
      }
      Take(Mark(persisted));
    }

    method CompleteDelivery(job: Job) returns (done: bool)
      requires Agrees() && world.pc == AtComplete(job)
      requires journal != null && job.Key() in journal.deliveries
      modifies this`world, this`log, journal
      ensures Agrees() && Extends(old(log), log) && world.pc == if done then AtReply(job, Ack) else Idle
      ensures Failures() == old(Failures()) + if done then 0 else 1
      ensures journal.deliveries == if done then old(journal.deliveries)[job.Key() := old(journal.deliveries)[job.Key()].(phase := Completed)]
                                    else old(journal.deliveries)
    {
      done := false;
      ghost var persisted := false;
      if journal != null {
        done, persisted := journal.Complete(job.deliveryType, job.deliveryKey);
      }
      Take(Delivery.Complete(persisted));
    }

    // The rollback is best effort: the reply is the same whether or not it was written.
    method AbortDelivery(job: Job, ghost reply: Reply) returns (done: bool)
      requires Agrees() && world.pc == AtAbort(job, reply)
      requires journal != null && job.Key() in journal.deliveries && journal.deliveries[job.Key()].phase != Completed
      modifies this`world, this`log, journal
      ensures Agrees() && Extends(old(log), log) && world.pc == AtReply(job, reply)
      ensures Failures() == old(Failures()) + if done then 0 else 1
      ensures journal.deliveries == if done then old(journal.deliveries) - {job.Key()} else old(journal.deliveries)
    {
      done := false;
      ghost var persisted := false;
      if journal != null {
        done, persisted := journal.Abort(job.deliveryType, job.deliveryKey);
      }
      Take(Delivery.Abort(persisted));
    }

    // Settles the record after the give and reports to the backend, if there is anything to report.
    method Settle(job: Job, spawnSuccess: bool, deferDelivery: bool, uncertain: bool, ghost end: GiveEnd) returns (ghost reply: Option<Reply>)
      requires Agrees() && world.pc == AfterGive(job, end) && (end.GaveNothing? ==> end.reply != Ack)
      requires (spawnSuccess <==> end == GaveAll) && (uncertain <==> end == Uncertain)
      requires deferDelivery <==> end == GaveNothing(Release)
      requires journal != null && job.Key() in journal.deliveries && journal.deliveries[job.Key()] == NewRecord(job).(phase := Mutating)
      modifies this`world, this`log, this`sent, journal
      ensures Valid() && Extends(old(log), log)
      ensures old(Failures()) <= Failures() <= old(Failures()) + 1
      ensures sent == old(sent) + MessageOf(Deliver(job, Rejected, true), reply)
      ensures Ended(journal.deliveries, Failures() > old(Failures()), job, end, reply)
      ensures KeptOutside(old(Records()), Records(), {job.Key()})
    {
      reply := None;
      if spawnSuccess {
        var done := CompleteDelivery(job);
        if done {
          SendToBackend(job, Ack);
          reply := Some(Ack);
        }
      } else if uncertain {
        SendToBackend(job, Release);
        reply := Some(Release);
      } else {
        var undone := AbortDelivery(job, if deferDelivery then Release else Fail);
        SendToBackend(job, if deferDelivery then Release else Fail);
        reply := Some(if deferDelivery then Release else Fail);
      }
    }

    /**
     One claimed delivery, from the claim to the message that ends it. While the journal can be
     written the answer and the record left behind are what the record found and the game's
     answers call for; a failed write ends it as `CutShort` says. The game is only touched for
     an online player whose key had no record.
     */
    method ProcessDelivery(claimed: Claimed, maxStack: ItemDelivery.StackSizes, round: Round) returns (ghost reply: Option<Reply>)
      requires Valid() && claimed.Deliver? && claimed.Valid() && round.Untouched()
      modifies this`world, this`log, this`sent, journal, round.engine, round.game
      ensures Valid() && Extends(old(log) + [Claim(claimed.job, claimed.online)], log)
      ensures old(Failures()) <= Failures() <= old(Failures()) + 1
      ensures sent == old(sent) + MessageOf(claimed, reply)
      ensures Delivered(old(Records()), Records(), Failures() > old(Failures()), claimed, EndOf(claimed, maxStack, round, round.Reported()), reply)
      ensures AskedAsDue(claimed, maxStack, round.engine.asks, MayStart(old(Records()), claimed) && (reply == Some(Ack) || reply == None))
      ensures !MayStart(old(Records()), claimed) ==> round.Untouched()
    {
      var job := claimed.job;
      Take(Claim(job, claimed.online));
      if !claimed.online {
        SendToBackend(job, Release);
        return Some(Release);
      }
      var execute, answer := PrepareDelivery(job);
      if !execute {
        SendToBackend(job, answer);
        return Some(answer);
      }
      ghost var begun := Records();
      reply := MarkAndGive(claimed, maxStack, round);
      KeptTwice(old(Records()), begun, Records(), {job.Key()}, {job.Key()});
    }

    // From the prepared record to the message that ends the job.
    method MarkAndGive(claimed: Claimed, maxStack: ItemDelivery.StackSizes, round: Round) returns (ghost reply: Option<Reply>)
      requires claimed.Deliver? && claimed.Valid() && round.Untouched()
      requires Agrees() && world.pc == AtMark(claimed.job)
      requires journal != null && claimed.job.Key() in journal.deliveries && journal.deliveries[claimed.job.Key()] == NewRecord(claimed.job)
      modifies this`world, this`log, this`sent, journal, round.engine, round.game
      ensures Valid() && Extends(old(log), log)
      ensures old(Failures()) <= Failures() <= old(Failures()) + 1
      ensures sent == old(sent) + MessageOf(claimed, reply)
      ensures Ended(journal.deliveries, Failures() > old(Failures()), claimed.job, EndOf(claimed, maxStack, round, round.Reported()), reply)
      ensures AskedAsDue(claimed, maxStack, round.engine.asks, reply == Some(Ack) || reply == None)
      ensures KeptOutside(old(Records()), Records(), {claimed.job.Key()})
    {
      var marked := MarkMutating(claimed.job);
      if !marked {
        SendToBackend(claimed.job, Release);
        return Some(Release);
      }
      ghost var begun := Records();
      reply := GiveAndSettle(claimed, maxStack, round);
      KeptTwice(old(Records()), begun, Records(), {claimed.job.Key()}, {claimed.job.Key()});
    }

    // From the mutating record to the message that ends the job.
    method GiveAndSettle(claimed: Claimed, maxStack: ItemDelivery.StackSizes, round: Round) returns (ghost reply: Option<Reply>)
      requires claimed.Deliver? && claimed.Valid() && round.Untouched()
      requires Agrees() && world.pc == AtGive(claimed.job, 0)
      requires journal != null && claimed.job.Key() in journal.deliveries
      requires journal.deliveries[claimed.job.Key()] == NewRecord(claimed.job).(phase := Mutating)
      modifies this`world, this`log, this`sent, journal, round.engine, round.game
      ensures Valid() && Extends(old(log), log)
      ensures old(Failures()) <= Failures() <= old(Failures()) + 1
      ensures sent == old(sent) + MessageOf(claimed, reply)
      ensures Ended(journal.deliveries, Failures() > old(Failures()), claimed.job, EndOf(claimed, maxStack, round, round.Reported()), reply)
      ensures AskedAsDue(claimed, maxStack, round.engine.asks, reply == Some(Ack) || reply == None)
      ensures KeptOutside(old(Records()), Records(), {claimed.job.Key()})
    {
      var spawnSuccess, deferDelivery, uncertain := Give(claimed, maxStack, round);
      reply := Settle(claimed.job, spawnSuccess, deferDelivery, uncertain, EndOf(claimed, maxStack, round, round.Reported()));
    }

    // A trace of the job's steps that starts with this claim.
    ghost method TraceOf(job: PermissionJobs.PermissionJob, store: PermissionJobs.GroupStore) returns (trace: PermissionRuns.Trace)
      ensures fresh(trace) && trace.Valid() && trace.world.pc.Idle? && trace.world.membership == store.membership
      ensures if journal == null then trace.world.memory == None else PermissionJobs.Mirrors(trace.world, journal)
      ensures PermissionJobs.IsJob(trace.world.job, job.deliveryType, job.deliveryKey, job.payload)
      ensures job.request.Some? ==> trace.world.job.request == job.request.value
    {
      var request := if job.request.Some? then job.request.value else PermissionSync.Request(PermissionSync.Add, None, PermissionSync.All);
      var memory := if journal == null then None else Some(journal.deliveries);
      var disk := if journal == null then None else journal.disk;
      trace := new PermissionRuns.Trace(
        PermissionRuns.World(PermissionRuns.Job(job.deliveryType, job.deliveryKey, job.payload, request), store.membership,
                             memory, disk, PermissionRuns.Idle, store.membership, [], false));
    }

    // The journal was changed at the key of a permission job.
    ghost method TakeOther(job: PermissionJobs.PermissionJob, before: Deliveries)
      requires job.deliveryType == PERMISSION_GRANT || job.deliveryType == PERMISSION_REVOKE
      requires Legal(FirstStart(), log) && Run(FirstStart(), log) == world && world.pc.Idle? && world.memory == Some(before)
      requires journal != null && journal.Snapshot().InSync() && KeptOutside(Some(before), Some(journal.deliveries), {job.Key()})
      modifies this`world, this`log
      ensures Valid() && log == old(log) + [OtherProtocol(journal.deliveries)]
    {
      OtherProtocolsOwnNothing(job.deliveryType, job.deliveryKey);
      assert forall k :: Owned(k) ==> Keeps(before, journal.deliveries, k);
      Take(OtherProtocol(journal.deliveries));
    }

    // One claimed permission job. To the deliveries it is another protocol's journal change.
    method ProcessPermission(job: PermissionJobs.PermissionJob, store: PermissionJobs.GroupStore, round: Round)
      returns (ghost reply: Reply)
      requires Valid() && (job.deliveryType == PERMISSION_GRANT || job.deliveryType == PERMISSION_REVOKE)
      modifies this`world, this`log, this`sent, journal, store
      ensures Valid() && log == old(log) + if journal == null then [] else [OtherProtocol(journal.deliveries)]
      ensures NotBefore(old(Now(store)), Now(store)) && reply == JobReply(old(Now(store)), Now(store), job, round)
      ensures sent == old(sent) + [Message(job.deliveryType, job.deliveryKey, reply)]
      ensures reply == Ack ==>
                journal != null && PermissionJobs.CompletedIn(journal.deliveries, job.Key()) && journal.disk == Some(journal.deliveries)
      ensures KeptOutside(old(Records()), Records(), {job.Key()})
      ensures Synced(old(store.membership), store.membership, old(Records()), job, round, reply)
    {
      RunKeepsInv(FirstStart(), log);
      var answer := SyncPermission(job, store, round);
      if journal != null {
        TakeOther(job, old(journal.deliveries));
      }
      sent := sent + [Message(job.deliveryType, job.deliveryKey, ReplyOf(answer))];
      reply := ReplyOf(answer);
    }

    // Carries the job out beside a trace of its own.
    method SyncPermission(job: PermissionJobs.PermissionJob, store: PermissionJobs.GroupStore, round: Round)
      returns (answer: PermissionSync.JobReply)
      requires journal != null ==> journal.Snapshot().InSync()
      modifies journal, store
      ensures journal != null ==> journal.Snapshot().InSync()
      ensures NotBefore(old(Now(store)), Now(store)) && ReplyOf(answer) == JobReply(old(Now(store)), Now(store), job, round)
      ensures answer == PermissionSync.AckJob ==> journal != null && PermissionJobs.CompletedIn(journal.deliveries, job.Key())
      ensures KeptOutside(old(Records()), Records(), {job.Key()})
      ensures Synced(old(store.membership), store.membership, old(Records()), job, round, ReplyOf(answer))
    {
      ghost var trace := TraceOf(job, store);
      ghost var ran;
      answer, ran := PermissionJobs.ProcessPermissionDelivery(journal, store, job, round.available, round.healthy, round.timedSupported,
                                                              round.now, round.now + round.delay, trace);
      assert TryOf(round, ran) == PermissionSync.Attempt(round.now, round.now + round.delay, round.timedSupported, ran);
    }

    /**
     One poll: the entries in order, up to the first one whose handling throws. From each view
     to the next the code does what `Handled` says, so every entry before that is claimed,
     given and answered as the journal, the player and the game call for.
     */
    method PollPendingOrders(claims: seq<Claimed>, maxStack: ItemDelivery.StackSizes, store: PermissionJobs.GroupStore, rounds: seq<Round>)
      returns (ghost views: seq<View>, ghost reports: seq<Report>, ghost replies: seq<Option<Reply>>)
      requires Valid() && forall i :: 0 <= i < |claims| ==> claims[i].Valid()
      requires |rounds| == |claims| && Played(rounds, []) && Apart(rounds)
      modifies this`world, this`log, this`sent, journal, store
      modifies Engines(rounds), Games(rounds)
      ensures Valid() && |replies| == Reached(claims)
      ensures Polled(views, claims, maxStack, rounds, reports, replies)
      ensures views[0] == old(Now(store)) && views[|replies|] == Now(store)
      ensures Played(rounds, reports)
    {
      views, reports, replies := [Now(store)], [], [];
      PolledFirst(Now(store), claims, maxStack, rounds);
      for n := 0 to |claims|
        invariant n <= Reached(claims) && |replies| == n
        invariant Valid() && Polled(views, claims, maxStack, rounds, reports, replies)
        invariant views[0] == old(Now(store)) && views[n] == Now(store)
        invariant Played(rounds, reports)
      {
        if claims[n] == BadSteamId {
          return;
        }
        assert n < Reached(claims);
        views, reports, replies := HandleNext(claims, n, maxStack, store, rounds, views, reports, replies);
      }
    }

    // The next entry, which adds its view, report and reply.
    method HandleNext(claims: seq<Claimed>, n: nat, maxStack: ItemDelivery.StackSizes, store: PermissionJobs.GroupStore, rounds: seq<Round>,
                      ghost views: seq<View>, ghost reports: seq<Report>, ghost replies: seq<Option<Reply>>)
      returns (ghost views': seq<View>, ghost reports': seq<Report>, ghost replies': seq<Option<Reply>>)
      requires Polled(views, claims, maxStack, rounds, reports, replies) && |replies| == n < |claims| && views[n] == Now(store)
      requires Valid() && claims[n].Valid() && claims[n] != BadSteamId && Played(rounds, reports) && Apart(rounds)
      modifies this`world, this`log, this`sent, journal, store, rounds[n].engine, rounds[n].game
      ensures Valid() && Polled(views', claims, maxStack, rounds, reports', replies') && |replies'| == n + 1
      ensures views'[0] == views[0] && views'[n + 1] == Now(store)
      ensures Played(rounds, reports')
    {
      ghost var reply := Handle(claims[n], maxStack, store, rounds[n]);
      assert forall i :: 0 <= i < |rounds| && i != n ==> rounds[i].engine != rounds[n].engine && rounds[i].game != rounds[n].game;
      PolledNext(views, claims, maxStack, rounds, reports, replies, Now(store), rounds[n].Reported(), reply);
      views', reports', replies' := views + [Now(store)], reports + [rounds[n].Reported()], replies + [reply];
    }

    // One entry of a poll.
    method Handle(claimed: Claimed, maxStack: ItemDelivery.StackSizes, store: PermissionJobs.GroupStore, round: Round)
      returns (ghost reply: Option<Reply>)
      requires Valid() && claimed.Valid() && claimed != BadSteamId && round.Untouched()
      modifies this`world, this`log, this`sent, journal, store, round.engine, round.game
      ensures Valid() && Handled(old(Now(store)), Now(store), claimed, maxStack, round, round.Reported(), reply)
    {
      reply := None;
      match claimed {
        case Incomplete =>
        case Permission(job) =>
          ghost var told := ProcessPermission(job, store, round);
          reply := Some(told);
        case Deliver(_, _, _) => reply := ProcessDelivery(claimed, maxStack, round);
      }
    }

    /** What the protocol guarantees, read off a live plugin between two polls. */
    lemma AtMostOnceHere(key: string)
      requires Valid()
      ensures Count(world.hist.episodes, key) <= 1
      ensures key in world.hist.acked && Owned(key) ==> journal != null ==>
                PermissionJobs.CompletedIn(journal.deliveries, key) && key in world.hist.full
      ensures journal != null ==> journal.Snapshot().InSync()
    {
      RunKeepsInv(FirstStart(), log);
      if key in world.hist.acked && Owned(key) && journal != null {
        assert Durable(world, key, Completed);
      }
    }
  }
}
