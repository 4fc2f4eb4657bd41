/**
 What one poll must come to (HeartShop.cpp, PollPendingOrders).

 Everything here is about values: what the entries say, what the game reported, and what the
 plugin had logged, sent and recorded before and after each entry. `HeartShop` proves that the
 code goes from one such view to the next as `Handled` says.
 */
module Polls {
  import opened Journal
  import opened Delivery
  import opened Fingerprints
  import CatalogDino
  import ItemDelivery
  import PermissionJobs
  import PermissionSync
  import opened Options

  // What the payload parses to. Lines are the order's item lines, each asking for at least one.
  datatype Content = Rejected | Items(lines: seq<ItemDelivery.Line>) | Dino

  // What a poll finds in one entry of the backend's answer.
  datatype Claimed =
    | Incomplete                                    // key, lease or player missing
    | BadSteamId                                    // the player id is not a number
    | Permission(permission: PermissionJobs.PermissionJob)
    | Deliver(job: Job, content: Content, online: bool)
  {
    ghost predicate Valid() {
      match this
      case Incomplete => true
      case BadSteamId => true
      case Permission(p) => p.deliveryType == PERMISSION_GRANT || p.deliveryType == PERMISSION_REVOKE
      case Deliver(job, content, _) =>
        && job.Valid()
        && (content.Items? ==>
              && content.lines != []
              && (forall i :: 0 <= i < |content.lines| ==> content.lines[i].quantity >= 1)
              && job.units == ItemDelivery.TotalUnits(content.lines))
        && (job.deliveryType == "dino_marketplace" || job.deliveryType == "dino_catalog" ==> job.units == 1)
    }
  }

  // What one entry meets when its turn comes: the player, the game and the group plugin.
  datatype Round = Round(playerBusy: bool, free: int, preflight: ItemDelivery.Preflight, engine: ItemDelivery.Engine,
                         spawned: bool, cryopod: CatalogDino.PreflightResult, game: CatalogDino.Game,
                         available: bool, healthy: bool, timedSupported: bool, now: int, delay: nat)
  {
    ghost predicate Untouched()
      reads engine, game
    {
      engine.Fresh() && game.Valid() && game.assets == CatalogDino.NOTHING && game.failed == {}
    }

    ghost function Reported(): Report
      reads engine, game
    {
      Report(engine.asks, engine.trouble, engine.touched, game.failed)
    }
  }

  /** What was asked of the inventory while one entry was handled, whether it was touched, and what went wrong in the game. */
  datatype Report = Report(asks: seq<ItemDelivery.Ask>, trouble: bool, touched: bool, failed: set<CatalogDino.Step>)

  // One message to the backend about one job.
  datatype Message = Message(deliveryType: string, deliveryKey: string, reply: Reply)

  function ReplyOf(reply: PermissionSync.JobReply): Reply {
    match reply
    case AckJob => Ack
    case ReleaseJob => Release
    case FailJob => Fail
  }

  // ---------------------------------------------------------------- one delivery

  /** How a give ends, told from the game alone: what it was asked, and what went wrong in it. */
  ghost function EndOf(claimed: Claimed, maxStack: ItemDelivery.StackSizes, round: Round, report: Report): GiveEnd
    requires claimed.Deliver?
  {
    if round.playerBusy then GaveNothing(Release)
    else if claimed.job.deliveryType == "order" && claimed.content.Items? then
      if ItemDelivery.MustWait(claimed.content.lines, maxStack, round.free, round.preflight) then GaveNothing(Release)
      else if !ItemDelivery.MayGive(claimed.content.lines, maxStack, round.free, round.preflight) then GaveNothing(Fail)
      else if !report.trouble then GaveAll
      else if report.touched then Uncertain
      else GaveNothing(Fail)
    else if claimed.job.deliveryType == "dino_marketplace" then
      if round.spawned then GaveAll else GaveNothing(Fail)
    else if claimed.job.deliveryType == "dino_catalog" && claimed.content.Dino? then
      match CatalogDino.OutcomeOf(round.cryopod, report.failed)
      case DeliveredInCryopod => GaveAll
      case DeliveredAsLiveTame => GaveAll
      case Deferred => GaveNothing(Release)
      case Failed => GaveNothing(Fail)
    else GaveNothing(Fail)
  }

  // What a delivery asks of the inventory.
  function AsksDue(claimed: Claimed, maxStack: ItemDelivery.StackSizes): seq<ItemDelivery.Ask>
    requires claimed.Deliver?
  {
    if claimed.job.deliveryType == "order" && claimed.content.Items?
    then ItemDelivery.AsksFor(claimed.content.lines, maxStack, |claimed.content.lines|) else []
  }

  // Nothing else is asked, and all of it by a give of everything.
  predicate AskedAsDue(claimed: Claimed, maxStack: ItemDelivery.StackSizes, asks: seq<ItemDelivery.Ask>, all: bool)
    requires claimed.Deliver?
  {
    asks <= AsksDue(claimed, maxStack) && (all ==> asks == AsksDue(claimed, maxStack))
  }

  function EndReply(end: GiveEnd): Reply {
    match end
    case GaveAll => Ack
    case GaveNothing(reply) => reply
    case Uncertain => Release
  }

  // The player is online and the key has no record.
  predicate MayStart(before: Option<Deliveries>, claimed: Claimed) {
    claimed.Deliver? && claimed.online && before.Some? && claimed.job.Key() !in before.value
  }

  // What a job is told whose key has a record already.
  function RecordReply(record: Record, payload: bytes): Reply {
    if record.fingerprint != FingerprintOf(payload) then Fail
    else if record.phase == Completed then Ack
    else Release
  }

  /** What the backend is told about a claimed delivery while every journal write succeeds. */
  function DueReply(before: Option<Deliveries>, claimed: Claimed, end: GiveEnd): Reply
    requires claimed.Deliver?
  {
    if !claimed.online || before.None? then Release
    else if claimed.job.Key() in before.value then RecordReply(before.value[claimed.job.Key()], claimed.job.payload)
    else EndReply(end)
  }

  function NewRecord(job: Job): Record {
    Record(job.deliveryType, job.deliveryKey, FingerprintOf(job.payload), job.payload, Prepared)
  }

  // The record a new delivery leaves while every write succeeds.
  predicate DueRecord(after: Deliveries, job: Job, end: GiveEnd) {
    match end
    case GaveAll => job.Key() in after && after[job.Key()] == NewRecord(job).(phase := Completed)
    case GaveNothing(_) => job.Key() !in after
    case Uncertain => job.Key() in after && after[job.Key()] == NewRecord(job).(phase := Mutating)
  }

  /**
   What a failed write leaves: no record or a prepared one, and the lease handed back; or, after
   the give, a mutating one. Then a give of everything is not acknowledged at all, and one of
   nothing is answered as if it had been rolled back.
   */
  predicate CutShort(after: Deliveries, job: Job, end: GiveEnd, reply: Option<Reply>) {
    if job.Key() !in after || after[job.Key()].phase == Prepared then reply == Some(Release)
    else
      && after[job.Key()].phase == Mutating && end != Uncertain
      && reply == if end == GaveAll then None else Some(EndReply(end))
  }

  predicate Ended(after: Deliveries, failed: bool, job: Job, end: GiveEnd, reply: Option<Reply>) {
    if failed then CutShort(after, job, end, reply)
    else DueRecord(after, job, end) && reply == Some(EndReply(end))
  }

  /** How one delivery is handled: `failed` is whether a journal write failed on the way. */
  ghost predicate Delivered(before: Option<Deliveries>, after: Option<Deliveries>, failed: bool, claimed: Claimed, end: GiveEnd, reply: Option<Reply>)
    requires claimed.Deliver?
  {
    && KeptOutside(before, after, {claimed.job.Key()})
    && if MayStart(before, claimed) then Ended(after.value, failed, claimed.job, end, reply)
       else after == before && !failed && reply == Some(DueReply(before, claimed, end))
  }

  // Records of other keys are as they were.
  ghost predicate KeptOutside(before: Option<Deliveries>, after: Option<Deliveries>, keys: set<string>) {
    && (before.None? <==> after.None?)
    && (before.Some? ==> forall k :: k !in keys ==> Keeps(before.value, after.value, k))
  }

  lemma KeptTwice(a: Option<Deliveries>, b: Option<Deliveries>, c: Option<Deliveries>, first: set<string>, second: set<string>)
    requires KeptOutside(a, b, first) && KeptOutside(b, c, second)
    ensures KeptOutside(a, c, first + second)
  {
    if a.Some? {
      forall k | k !in first + second
        ensures Keeps(a.value, c.value, k)
      {
        assert Keeps(a.value, b.value, k) && Keeps(b.value, c.value, k);
      }
    }
  }

  // ---------------------------------------------------------------- one entry

  /** What a poll changes: the steps taken, the messages sent, the records, the group store, and how often something went wrong. */
  datatype View = View(log: seq<Event>, sent: seq<Message>, records: Option<Deliveries>, membership: PermissionSync.Membership,
                       failures: nat, refusals: nat, faults: nat)

  predicate NotBefore(a: View, b: View) {
    a.failures <= b.failures && a.refusals <= b.refusals && a.faults <= b.faults
  }

  // The job's record answers for it: completed, or begun with another payload.
  predicate SettledEarlier(before: Option<Deliveries>, job: PermissionJobs.PermissionJob) {
    && before.Some? && job.Key() in before.value
    && (before.value[job.Key()].phase == Completed || before.value[job.Key()].fingerprint != FingerprintOf(job.payload))
  }

  /** What the backend is told about a permission job. */
  function JobReply(a: View, b: View, job: PermissionJobs.PermissionJob, round: Round): Reply {
    if a.records.None? || !round.available then Release
    else if job.request.None? then Fail
    else if !job.groupAllowed then Release
    else if SettledEarlier(a.records, job) then RecordReply(a.records.value[job.Key()], job.payload)
    else if a.refusals < b.refusals then Fail
    else if round.healthy && a.faults == b.faults && a.failures == b.failures then Ack
    else Release
  }

  // The try a permission job makes here, cut off after `ran` calls.
  function TryOf(round: Round, ran: nat): PermissionSync.Attempt {
    PermissionSync.Attempt(round.now, round.now + round.delay, round.timedSupported, ran)
  }

  function StepsDue(request: PermissionSync.Request, round: Round): nat {
    |PermissionSync.BuildPlan(request, round.now, round.timedSupported).steps|
  }

  // The group plugin is asked for this job.
  predicate MayRun(records: Option<Deliveries>, job: PermissionJobs.PermissionJob, round: Round) {
    records.Some? && round.available && round.healthy && job.request.Some? && job.groupAllowed && !SettledEarlier(records, job)
  }

  /** The membership after a permission job: as it was, or as some first calls of the plan leave it; acknowledged means all. */
  ghost predicate Synced(before: PermissionSync.Membership, after: PermissionSync.Membership, records: Option<Deliveries>,
                         job: PermissionJobs.PermissionJob, round: Round, reply: Reply) {
    if !MayRun(records, job, round) then after == before
    else
      exists ran: nat ::
        && ran <= StepsDue(job.request.value, round) && (reply == Ack ==> ran == StepsDue(job.request.value, round))
        && after == PermissionSync.AfterAttempt(before, job.request.value, TryOf(round, ran))
  }

  function ClaimOf(claimed: Claimed): seq<Event> {
    match claimed
    case Deliver(job, _, online) => [Claim(job, online)]
    case _ => []
  }

  function MessageOf(claimed: Claimed, reply: Option<Reply>): seq<Message> {
    if reply.None? then []
    else
      match claimed
      case Deliver(job, _, _) => [Message(job.deliveryType, job.deliveryKey, reply.value)]
      case Permission(job) => [Message(job.deliveryType, job.deliveryKey, reply.value)]
      case _ => []
  }

  // The steps of one entry: its claim, if it is a delivery, and no other.
  ghost predicate StepsOf(before: seq<Event>, after: seq<Event>, claimed: Claimed) {
    && before + ClaimOf(claimed) <= after
    && (forall i :: |before + ClaimOf(claimed)| <= i < |after| ==> !after[i].Claim?)
    && NoRestart(before, after)
  }

  ghost predicate NoRestart(before: seq<Event>, after: seq<Event>) {
    forall i :: |before| <= i < |after| ==> !after[i].Crash? && !after[i].Start?
  }

  lemma NoRestartTwice(a: seq<Event>, b: seq<Event>, c: seq<Event>)
    requires a <= b <= c && NoRestart(a, b) && NoRestart(b, c)
    ensures NoRestart(a, c)
  {
    forall i | |a| <= i < |c|
      ensures !c[i].Crash? && !c[i].Start?
    {
      if i < |b| {
        assert c[i] == b[i];
      }
    }
  }

  function OwnKey(claimed: Claimed): set<string> {
    match claimed
    case Deliver(job, _, _) => {job.Key()}
    case Permission(job) => {job.Key()}
    case _ => {}
  }

  /** One entry of a poll: its steps, its message, and the records after it. */
  ghost predicate Handled(a: View, b: View, claimed: Claimed, maxStack: ItemDelivery.StackSizes, round: Round, report: Report, reply: Option<Reply>) {
    && NotBefore(a, b)
    && StepsOf(a.log, b.log, claimed)
    && b.sent == a.sent + MessageOf(claimed, reply)
    && KeptOutside(a.records, b.records, OwnKey(claimed))
    && (!claimed.Permission? ==> b.membership == a.membership)
    && match claimed
       case Deliver(_, _, _) =>
         && Delivered(a.records, b.records, a.failures < b.failures, claimed, EndOf(claimed, maxStack, round, report), reply)
         && AskedAsDue(claimed, maxStack, report.asks, MayStart(a.records, claimed) && (reply == Some(Ack) || reply == None))
       case Permission(job) =>
         && reply == Some(JobReply(a, b, job, round))
         && Synced(a.membership, b.membership, a.records, job, round, reply.value)
       case _ => reply == None
  }

  // ---------------------------------------------------------------- a whole poll

  // The entries a poll comes to: all before the first player id that is not a number.
  function Reached(claims: seq<Claimed>): (n: nat)
    ensures n <= |claims| && (forall i :: 0 <= i < n ==> claims[i] != BadSteamId) && (n < |claims| ==> claims[n] == BadSteamId)
  {
    if claims == [] || claims[0] == BadSteamId then 0 else 1 + Reached(claims[1..])
  }

  /** A poll so far: `views` are what the plugin had before each of the entries handled, and has now. */
  ghost predicate Polled(views: seq<View>, claims: seq<Claimed>, maxStack: ItemDelivery.StackSizes, rounds: seq<Round>,
                         reports: seq<Report>, replies: seq<Option<Reply>>)
  {
    && |replies| <= |claims| == |rounds|
    && |reports| == |replies| && |views| == |replies| + 1
    && forall i :: 0 <= i < |replies| ==> Handled(views[i], views[i + 1], claims[i], maxStack, rounds[i], reports[i], replies[i])
  }

  lemma PolledFirst(view: View, claims: seq<Claimed>, maxStack: ItemDelivery.StackSizes, rounds: seq<Round>)
    requires |claims| == |rounds|
    ensures Polled([view], claims, maxStack, rounds, [], [])
  {
  }

  lemma PolledNext(views: seq<View>, claims: seq<Claimed>, maxStack: ItemDelivery.StackSizes, rounds: seq<Round>,
                   reports: seq<Report>, replies: seq<Option<Reply>>, view: View, report: Report, reply: Option<Reply>)
    requires Polled(views, claims, maxStack, rounds, reports, replies) && |replies| < |claims|
    requires Handled(views[|replies|], view, claims[|replies|], maxStack, rounds[|replies|], report, reply)
    ensures Polled(views + [view], claims, maxStack, rounds, reports + [report], replies + [reply])
  {
  }

  // The claim steps among some steps, in order.
  function ClaimsIn(es: seq<Event>): seq<Event> {
    if es == [] then []
    else ClaimsIn(es[..|es| - 1]) + if es[|es| - 1].Claim? then [es[|es| - 1]] else []
  }

  // The claim steps due for the first `n` entries, in order.
  function ClaimsOf(claims: seq<Claimed>, n: nat): seq<Event>
    requires n <= |claims|
  {
    if n == 0 then [] else ClaimsOf(claims, n - 1) + ClaimOf(claims[n - 1])
  }

  // The messages with these replies to the first `n` entries, in order.
  function MessagesOf(claims: seq<Claimed>, replies: seq<Option<Reply>>, n: nat): seq<Message>
    requires n <= |replies| <= |claims|
  {
    if n == 0 then [] else MessagesOf(claims, replies, n - 1) + MessageOf(claims[n - 1], replies[n - 1])
  }

  // The keys of the first `n` entries.
  function KeysOf(claims: seq<Claimed>, n: nat): set<string>
    requires n <= |claims|
  {
    if n == 0 then {} else KeysOf(claims, n - 1) + OwnKey(claims[n - 1])
  }

  lemma {:induction false} NoClaimsAdded(es: seq<Event>, more: seq<Event>)
    requires forall i :: 0 <= i < |more| ==> !more[i].Claim?
    ensures ClaimsIn(es + more) == ClaimsIn(es)
    decreases |more|
  {
    if more == [] {
      assert es + more == es;
    } else {
      assert (es + more)[..|es + more| - 1] == es + more[..|more| - 1];
      NoClaimsAdded(es, more[..|more| - 1]);
    }
  }

  lemma ClaimsNext(first: seq<Event>, before: seq<Event>, after: seq<Event>, claimed: Claimed, due: seq<Event>)
    requires first <= before && NoRestart(first, before) && StepsOf(before, after, claimed)
    requires ClaimsIn(before[|first|..]) == due
    ensures first <= after && NoRestart(first, after)
    ensures ClaimsIn(after[|first|..]) == due + ClaimOf(claimed)
  {
    NoRestartTwice(first, before, after);
    var taken, mine := before[|first|..], ClaimOf(claimed);
    var more := after[|before + mine|..];
    assert after[|first|..] == taken + mine + more;
    NoClaimsAdded(taken + mine, more);
    if mine == [] {
      assert taken + mine == taken;
    } else {
      assert (taken + mine)[..|taken|] == taken;
    }
  }

  lemma {:induction false} ClaimsAlong(views: seq<View>, claims: seq<Claimed>, n: nat, due: seq<Event>)
    requires n <= |claims| && n < |views| && due == ClaimsOf(claims, n)
    requires forall i :: 0 <= i < n ==> StepsOf(views[i].log, views[i + 1].log, claims[i])
    ensures views[0].log <= views[n].log && NoRestart(views[0].log, views[n].log)
    ensures ClaimsIn(views[n].log[|views[0].log|..]) == due
    decreases n
  {
    if n == 0 {
      assert views[0].log[|views[0].log|..] == [];
    } else {
      ClaimsAlong(views, claims, n - 1, ClaimsOf(claims, n - 1));
      assert StepsOf(views[n - 1].log, views[n - 1 + 1].log, claims[n - 1]);
      ClaimsNext(views[0].log, views[n - 1].log, views[n].log, claims[n - 1], ClaimsOf(claims, n - 1));
    }
  }

  /**
   A poll claims every delivery entry it comes to, in order and once, and nothing else; no step
   of it is a crash or a start.
   */
  lemma EveryDeliveryIsClaimed(views: seq<View>, claims: seq<Claimed>, maxStack: ItemDelivery.StackSizes, rounds: seq<Round>,
                               reports: seq<Report>, replies: seq<Option<Reply>>)
    requires Polled(views, claims, maxStack, rounds, reports, replies)
    ensures var first, last, n := views[0].log, views[|replies|].log, |replies|;
            first <= last && NoRestart(first, last) && ClaimsIn(last[|first|..]) == ClaimsOf(claims, n)
  {
    forall i | 0 <= i < |replies|
      ensures StepsOf(views[i].log, views[i + 1].log, claims[i])
    {
      assert Handled(views[i], views[i + 1], claims[i], maxStack, rounds[i], reports[i], replies[i]);
    }
    ClaimsAlong(views, claims, |replies|, ClaimsOf(claims, |replies|));
  }

  /**
   A poll sends its replies in order and no other message; every permission entry has one, and
   every delivery entry too unless one of its journal writes failed.
   */
  lemma {:induction false} EveryEntryIsAnswered(views: seq<View>, claims: seq<Claimed>, maxStack: ItemDelivery.StackSizes, rounds: seq<Round>,
                                                reports: seq<Report>, replies: seq<Option<Reply>>, n: nat)
    requires Polled(views, claims, maxStack, rounds, reports, replies) && n <= |replies|
    ensures views[n].sent == views[0].sent + MessagesOf(claims, replies, n)
    ensures forall i :: 0 <= i < n && claims[i].Permission? ==> replies[i].Some?
    ensures forall i :: 0 <= i < n && claims[i].Deliver? && replies[i].None? ==> views[i].failures < views[i + 1].failures
    ensures NotBefore(views[0], views[n])
  {
    if n > 0 {
      EveryEntryIsAnswered(views, claims, maxStack, rounds, reports, replies, n - 1);
      assert Handled(views[n - 1], views[n], claims[n - 1], maxStack, rounds[n - 1], reports[n - 1], replies[n - 1]);
    }
  }

  /** Records of keys that no entry of the poll names are as they were. */
  lemma {:induction false} OtherRecordsStay(views: seq<View>, claims: seq<Claimed>, maxStack: ItemDelivery.StackSizes, rounds: seq<Round>,
                                            reports: seq<Report>, replies: seq<Option<Reply>>, n: nat)
    requires Polled(views, claims, maxStack, rounds, reports, replies) && n <= |replies|
    ensures KeptOutside(views[0].records, views[n].records, KeysOf(claims, n))
  {
    if n > 0 {
      OtherRecordsStay(views, claims, maxStack, rounds, reports, replies, n - 1);
      assert Handled(views[n - 1], views[n], claims[n - 1], maxStack, rounds[n - 1], reports[n - 1], replies[n - 1]);
      KeptTwice(views[0].records, views[n - 1].records, views[n].records, KeysOf(claims, n - 1), OwnKey(claims[n - 1]));
    }
  }

  // No earlier entry has its key.
  predicate First(claims: seq<Claimed>, i: nat)
    requires i < |claims|
  {
    OwnKey(claims[i]) !! KeysOf(claims, i)
  }

  /**
   The first entry of each key is answered from the journal the poll started with, however the
   entries before it went: a new key by how its own give ends, any other by its record.
   */
  lemma FirstOfItsKey(views: seq<View>, claims: seq<Claimed>, maxStack: ItemDelivery.StackSizes, rounds: seq<Round>,
                      reports: seq<Report>, replies: seq<Option<Reply>>, i: nat)
    requires Polled(views, claims, maxStack, rounds, reports, replies) && i < |replies|
    requires claims[i].Deliver? && First(claims, i) && views[i].failures == views[i + 1].failures
    ensures replies[i] == Some(DueReply(views[0].records, claims[i], EndOf(claims[i], maxStack, rounds[i], reports[i])))
  {
    OtherRecordsStay(views, claims, maxStack, rounds, reports, replies, i);
    var key := claims[i].job.Key();
    assert key in OwnKey(claims[i]);
    assert Handled(views[i], views[i + 1], claims[i], maxStack, rounds[i], reports[i], replies[i]);
  }

  /**
   A new order for an online, free player with room for it, in a game that does as it is asked,
   is delivered and acknowledged by the poll that brings it, and its record is completed.
   */
  lemma GoodOrderIsDelivered(views: seq<View>, claims: seq<Claimed>, maxStack: ItemDelivery.StackSizes, rounds: seq<Round>,
                             reports: seq<Report>, replies: seq<Option<Reply>>, i: nat)
    requires Polled(views, claims, maxStack, rounds, reports, replies) && i < |replies|
    requires claims[i].Deliver? && First(claims, i) && views[i].failures == views[i + 1].failures
    requires MayStart(views[0].records, claims[i]) && claims[i].job.deliveryType == "order" && claims[i].content.Items?
    requires ItemDelivery.MayGive(claims[i].content.lines, maxStack, rounds[i].free, rounds[i].preflight)
    requires !rounds[i].playerBusy && !reports[i].trouble
    ensures replies[i] == Some(Ack) && reports[i].asks == ItemDelivery.AsksFor(claims[i].content.lines, maxStack, |claims[i].content.lines|)
    ensures views[i + 1].records.Some? && PermissionJobs.CompletedIn(views[i + 1].records.value, claims[i].job.Key())
  {
    FirstOfItsKey(views, claims, maxStack, rounds, reports, replies, i);
    OtherRecordsStay(views, claims, maxStack, rounds, reports, replies, i);
    assert claims[i].job.Key() in OwnKey(claims[i]);
    assert Handled(views[i], views[i + 1], claims[i], maxStack, rounds[i], reports[i], replies[i]);
  }
}
