/**
 The claimed-delivery protocol as a step system (HeartShop.cpp, PollPendingOrders with
 PrepareDelivery, CompleteDelivery and AbortDelivery, over DeliveryJournal.cpp).

 One claimed job runs on the game thread at a time. Each journal call, each unit handed to the
 player and each message to the backend is one step; writing the journal may fail at any call,
 the process may crash between any two steps, and the backend may send any job again at any
 time. `History` is what an omniscient observer would have written down; no step reads it.
 */
module Delivery {
  import opened Journal
  import opened Fingerprints
  import opened Options

  const PERMISSION_GRANT := "permission_grant"
  const PERMISSION_REVOKE := "permission_revoke"
  const DINO_LISTING := "dino_listing"

  // The delivery types whose branch hands something out; any other type falls through to an error.
  predicate Givable(deliveryType: string) {
    deliveryType == "order" || deliveryType == "dino_marketplace" || deliveryType == "dino_catalog"
  }

  // Keys of givable deliveries; permission and listing records never have one.
  predicate Owned(key: string) {
    "order:" <= key || "dino_marketplace:" <= key || "dino_catalog:" <= key
  }

  lemma GivableKeysAreOwned(t: string, id: string)
    requires Givable(t)
    ensures Owned(MakeKey(t, id))
  {
    assert t + ":" <= MakeKey(t, id);
    assert "order" + ":" == "order:" && "dino_marketplace" + ":" == "dino_marketplace:" && "dino_catalog" + ":" == "dino_catalog:";
  }

  lemma OtherProtocolsOwnNothing(t: string, id: string)
    requires t == PERMISSION_GRANT || t == PERMISSION_REVOKE || t == DINO_LISTING
    ensures !Owned(MakeKey(t, id))
  {
    var key := MakeKey(t, id);
    assert key[0] == t[0] && key[5] == t[5];
    assert "order:"[0] == 'o' && "dino_marketplace:"[5] == 'm' && "dino_catalog:"[5] == 'c';
    assert PERMISSION_GRANT[0] == 'p' && PERMISSION_REVOKE[0] == 'p' && DINO_LISTING[5] == 'l' && DINO_LISTING[0] == 'd';
  }

  // `units` is how many assets the payload stands for: item units, or one dino.
  datatype Job = Job(deliveryType: string, deliveryKey: string, payload: bytes, units: nat) {
    function Key(): string {
      MakeKey(deliveryType, deliveryKey)
    }
    predicate Valid() {
      && deliveryType != PERMISSION_GRANT && deliveryType != PERMISSION_REVOKE
      && (Givable(deliveryType) ==> units > 0)
    }
  }

  // Ack tells the backend "complete"; Release hands the lease back; Fail consumes an attempt.
  datatype Reply = Ack | Release | Fail

  // How a give ended: everything, nothing (with what to tell the backend), or somewhere between.
  datatype GiveEnd = GaveAll | GaveNothing(reply: Reply) | Uncertain

  datatype Pc =
    | Down
    | Idle
    | AtBegin(job: Job)
    | AtMark(job: Job)
    | AtGive(job: Job, out: nat)
    | AtComplete(job: Job)
    | AtAbort(job: Job, reply: Reply)
    | AtReply(job: Job, reply: Reply)

  /**
   handed:   units ever handed out under a key;
   episodes: how many separate gives handed something out under it;
   giver:    the job of the first such give;
   full:     keys whose give ended with everything handed out;
   acked:    keys reported to the backend as complete, with the job last reported so.
   */
  datatype History = History(handed: map<string, nat>, episodes: map<string, nat>, giver: map<string, Job>,
                             full: set<string>, acked: map<string, Job>)

  // `memory` is None while no journal is loaded: the process is down, or loading failed.
  datatype World = World(memory: Option<Deliveries>, disk: Option<Deliveries>, pc: Pc, hist: History)

  datatype Event =
    | Claim(job: Job, online: bool)
    | Begin(persisted: bool)
    | Mark(persisted: bool)
    | HandOut
    | EndGive(end: GiveEnd)
    | Complete(persisted: bool)
    | Abort(persisted: bool)
    | Send
    | OtherProtocol(deliveries: Deliveries)
    | Crash
    | Start(readable: bool, persisted: bool)

  function FirstStart(): World {
    World(None, None, Down, History(map[], map[], map[], {}, map[]))
  }

  function StoreOf(w: World): Store {
    Store(if w.memory.Some? then w.memory.value else map[], w.disk)
  }

  function WithStore(w: World, s: Store, pc: Pc): World {
    w.(memory := Some(s.memory), disk := s.disk, pc := pc)
  }

  function Count(m: map<string, nat>, key: string): nat {
    if key in m then m[key] else 0
  }

  // Which steps can happen. Give steps are honest: "nothing" is reported only when nothing was
  // handed out, "everything" only when every unit was.
  ghost predicate Enabled(w: World, e: Event) {
    match e
    case Claim(job, _) => w.pc.Idle? && job.Valid()
    case Begin(_) => w.pc.AtBegin?
    case Mark(_) => w.pc.AtMark?
    case HandOut => w.pc.AtGive? && Givable(w.pc.job.deliveryType) && w.pc.out < w.pc.job.units
    case EndGive(end) =>
      w.pc.AtGive? &&
      (match end
       case GaveAll => Givable(w.pc.job.deliveryType) && w.pc.out == w.pc.job.units
       case GaveNothing(reply) => w.pc.out == 0 && reply != Ack
       case Uncertain => true)
    case Complete(_) => w.pc.AtComplete?
    case Abort(_) => w.pc.AtAbort?
    case Send => w.pc.AtReply?
    case OtherProtocol(d) =>
      w.pc.Idle? && w.memory.Some? &&
      (forall k :: Owned(k) ==> (k in d <==> k in w.memory.value)) &&
      (forall k :: Owned(k) && k in d && k in w.memory.value ==> d[k] == w.memory.value[k])
    case Crash => !w.pc.Down?
    case Start(_, _) => w.pc.Down?
  }

  function Apply(w: World, e: Event): World
    requires Enabled(w, e)
  {
    match e
    case Claim(job, online) => w.(pc := if online then AtBegin(job) else AtReply(job, Release))
    case Begin(persisted) => ApplyBegin(w, persisted)
    case Mark(persisted) => ApplyMark(w, persisted)
    case HandOut => ApplyHandOut(w)
    case EndGive(end) => ApplyEndGive(w, end)
    case Complete(persisted) => ApplyComplete(w, persisted)
    case Abort(persisted) => ApplyAbort(w, persisted)
    case Send =>
      w.(pc := Idle,
         hist := if w.pc.reply == Ack then w.hist.(acked := w.hist.acked[w.pc.job.Key() := w.pc.job]) else w.hist)
    case OtherProtocol(d) => w.(memory := Some(d), disk := Some(d))
    case Crash => w.(memory := None, pc := Down)
    case Start(readable, persisted) =>
      if w.disk.None? then
        if persisted then w.(memory := Some(map[]), disk := Some(map[]), pc := Idle) else w.(pc := Idle)
      else w.(memory := if readable then w.disk else None, pc := Idle)
  }

  function ApplyBegin(w: World, persisted: bool): World
    requires w.pc.AtBegin?
  {
    var job := w.pc.job;
    if w.memory.None? then w.(pc := AtReply(job, Release))
    else
      var s := StoreOf(w);
      var result := BeginOutcome(s, job.deliveryType, job.deliveryKey, job.payload, persisted);
      WithStore(w, AfterBegin(s, job.deliveryType, job.deliveryKey, job.payload, persisted),
                match result
                case Started => AtMark(job)
                case AlreadyCompleted => AtReply(job, Ack)
                case PayloadMismatch => AtReply(job, Fail)
                case UncertainPrepared => AtReply(job, Release)
                case PersistenceError => AtReply(job, Release))
  }

  function ApplyMark(w: World, persisted: bool): World
    requires w.pc.AtMark?
  {
    var job, s := w.pc.job, StoreOf(w);
    if w.memory.None? then w.(pc := AtReply(job, Release))
    else WithStore(w, AfterMark(s, job.Key(), persisted),
                   if MarkAllowed(s, job.Key()) && persisted then AtGive(job, 0) else AtReply(job, Release))
  }

  function ApplyHandOut(w: World): World
    requires w.pc.AtGive?
  {
    var job, key, h := w.pc.job, w.pc.job.Key(), w.hist;
    var first := w.pc.out == 0;
    w.(pc := AtGive(job, w.pc.out + 1),
       hist := h.(handed := h.handed[key := Count(h.handed, key) + 1],
                  episodes := if first then h.episodes[key := Count(h.episodes, key) + 1] else h.episodes,
                  giver := if key in h.giver then h.giver else h.giver[key := job]))
  }

  function ApplyEndGive(w: World, end: GiveEnd): World
    requires w.pc.AtGive?
  {
    var job := w.pc.job;
    match end
    case GaveAll => w.(pc := AtComplete(job), hist := w.hist.(full := w.hist.full + {job.Key()}))
    case GaveNothing(reply) => w.(pc := AtAbort(job, reply))
    case Uncertain => w.(pc := AtReply(job, Release))
  }

  // A completion that could not be written suppresses the acknowledgement.
  function ApplyComplete(w: World, persisted: bool): World
    requires w.pc.AtComplete?
  {
    var job, s := w.pc.job, StoreOf(w);
    if w.memory.None? then w.(pc := Idle)
    else WithStore(w, AfterComplete(s, job.Key(), persisted),
                   if job.Key() in s.memory && persisted then AtReply(job, Ack) else Idle)
  }

  // The rollback is best effort: the backend is told the same thing whether or not it was written.
  function ApplyAbort(w: World, persisted: bool): World
    requires w.pc.AtAbort?
  {
    var job := w.pc.job;
    if w.memory.None? then w.(pc := AtReply(job, w.pc.reply))
    else WithStore(w, AfterAbort(StoreOf(w), job.Key(), persisted), AtReply(job, w.pc.reply))
  }

  ghost predicate Legal(w: World, es: seq<Event>)
    decreases |es|
  {
    es == [] || (Enabled(w, es[0]) && Legal(Apply(w, es[0]), es[1..]))
  }

  function Run(w: World, es: seq<Event>): World
    requires Legal(w, es)
    decreases |es|
  {
    if es == [] then w else Run(Apply(w, es[0]), es[1..])
  }

  lemma OneStep(w: World, e: Event)
    requires Enabled(w, e)
    ensures Legal(w, [e]) && Run(w, [e]) == Apply(w, e)
  {
    var next := Apply(w, e);
    assert [e][0] == e && [e][1..] == [];
    assert Legal(next, []) && Run(next, []) == next;
  }

  lemma {:induction false} RunConcat(w: World, es: seq<Event>, fs: seq<Event>)
    requires Legal(w, es) && Legal(Run(w, es), fs)
    ensures Legal(w, es + fs) && Run(w, es + fs) == Run(Run(w, es), fs)
    decreases |es|
  {
    if es == [] {
      assert es + fs == fs;
    } else {
      RunConcat(Apply(w, es[0]), es[1..], fs);
      assert (es + fs)[0] == es[0] && (es + fs)[1..] == es[1..] + fs;
    }
  }

  // ---------------------------------------------------------------- the inductive invariant

  predicate Durable(w: World, key: string, phase: Phase) {
    w.disk.Some? && key in w.disk.value && w.disk.value[key].phase == phase
  }

  // A loaded journal equals the file; none is loaded while the process is down.
  ghost predicate InSync(w: World) {
    && (w.memory.Some? ==> w.disk == w.memory)
    && (w.pc.Down? ==> w.memory.None?)
  }

  /** Whatever was handed out under a key has a mutating or completed record on disk. */
  ghost predicate HandedIsRecorded(w: World) {
    forall k :: k in w.hist.giver ==> Owned(k) && (Durable(w, k, Mutating) || Durable(w, k, Completed))
  }

  ghost predicate HandedOnce(w: World) {
    && w.hist.handed.Keys == w.hist.episodes.Keys == w.hist.giver.Keys
    && forall k :: k in w.hist.giver ==>
                     w.hist.episodes[k] == 1 && w.hist.handed[k] <= w.hist.giver[k].units
  }

  ghost predicate FullMeansAll(w: World) {
    forall k :: k in w.hist.full ==> k in w.hist.giver && k in w.hist.handed && w.hist.handed[k] == w.hist.giver[k].units
  }

  ghost predicate CompletedMeansFull(w: World) {
    forall k :: Owned(k) && Durable(w, k, Completed) ==> k in w.hist.full
  }

  ghost predicate AckedIsCompleted(w: World) {
    forall k :: k in w.hist.acked && Owned(k) ==> Durable(w, k, Completed)
  }

  // What the running job may rely on at each point.
  ghost predicate PcConsistent(w: World) {
    match w.pc
    case Down => true
    case Idle => true
    case AtBegin(job) => job.Valid()
    case AtMark(job) =>
      job.Valid() && w.memory.Some? && Durable(w, job.Key(), Prepared)
    case AtGive(job, out) =>
      && job.Valid() && w.memory.Some? && Durable(w, job.Key(), Mutating)
      && job.Key() !in w.hist.full
      && (out == 0 ==> job.Key() !in w.hist.giver)
      && (out > 0 ==> job.Key() in w.hist.giver && w.hist.giver[job.Key()] == job &&
                      job.Key() in w.hist.handed && w.hist.handed[job.Key()] == out)
    case AtComplete(job) =>
      w.memory.Some? && Durable(w, job.Key(), Mutating) && job.Key() in w.hist.full
    case AtAbort(job, reply) =>
      w.memory.Some? && Durable(w, job.Key(), Mutating) && job.Key() !in w.hist.giver && reply != Ack
    case AtReply(job, reply) =>
      reply == Ack && Owned(job.Key()) ==> Durable(w, job.Key(), Completed)
  }

  ghost predicate Inv(w: World) {
    && InSync(w) && HandedIsRecorded(w) && HandedOnce(w) && FullMeansAll(w)
    && CompletedMeansFull(w) && AckedIsCompleted(w) && PcConsistent(w)
  }

  lemma BeginKeepsInv(w: World, persisted: bool)
    requires Inv(w) && w.pc.AtBegin?
    ensures Inv(ApplyBegin(w, persisted))
  {
    if w.memory.Some? {
      var job := w.pc.job;
      match BeginOutcome(StoreOf(w), job.deliveryType, job.deliveryKey, job.payload, persisted)
      case Started => assert Durable(ApplyBegin(w, persisted), job.Key(), Prepared);
      case _ =>
    }
  }

  lemma MarkKeepsInv(w: World, persisted: bool)
    requires Inv(w) && w.pc.AtMark?
    ensures Inv(ApplyMark(w, persisted))
  {
  }

  lemma HandOutKeepsInv(w: World)
    requires Inv(w) && Enabled(w, HandOut)
    ensures Inv(ApplyHandOut(w))
  {
    GivableKeysAreOwned(w.pc.job.deliveryType, w.pc.job.deliveryKey);
    HandOutIsOnce(w);
    HandOutKeepsRest(w);
  }

  lemma HandOutIsOnce(w: World)
    requires Inv(w) && Enabled(w, HandOut) && Owned(w.pc.job.Key())
    ensures HandedIsRecorded(ApplyHandOut(w)) && HandedOnce(ApplyHandOut(w))
  {
  }

  lemma HandOutKeepsRest(w: World)
    requires Inv(w) && Enabled(w, HandOut)
    ensures var w' := ApplyHandOut(w);
            InSync(w') && FullMeansAll(w') && CompletedMeansFull(w') && AckedIsCompleted(w') && PcConsistent(w')
  {
  }

  lemma EndGiveKeepsInv(w: World, end: GiveEnd)
    requires Inv(w) && Enabled(w, EndGive(end))
    ensures Inv(ApplyEndGive(w, end))
  {
  }

  lemma CompleteKeepsInv(w: World, persisted: bool)
    requires Inv(w) && w.pc.AtComplete?
    ensures Inv(ApplyComplete(w, persisted))
  {
  }

  lemma AbortKeepsInv(w: World, persisted: bool)
    requires Inv(w) && w.pc.AtAbort?
    ensures Inv(ApplyAbort(w, persisted))
  {
  }

  lemma OtherKeepsInv(w: World, d: Deliveries)
    requires Inv(w) && Enabled(w, OtherProtocol(d))
    ensures Inv(Apply(w, OtherProtocol(d)))
  {
    var w' := Apply(w, OtherProtocol(d));
    assert forall k, p :: Owned(k) ==> (Durable(w', k, p) <==> Durable(w, k, p));
  }

  lemma StepKeepsInv(w: World, e: Event)
    requires Inv(w) && Enabled(w, e)
    ensures Inv(Apply(w, e))
  {
    match e
    case Begin(p) => BeginKeepsInv(w, p);
    case Mark(p) => MarkKeepsInv(w, p);
    case HandOut => HandOutKeepsInv(w);
    case EndGive(end) => EndGiveKeepsInv(w, end);
    case Complete(p) => CompleteKeepsInv(w, p);
    case Abort(p) => AbortKeepsInv(w, p);
    case OtherProtocol(d) => OtherKeepsInv(w, d);
    case Claim(_, _) =>
    case Send =>
    case Crash =>
    case Start(_, _) =>
  }

  lemma {:induction false} RunKeepsInv(w: World, es: seq<Event>)
    requires Inv(w) && Legal(w, es)
    ensures Inv(Run(w, es))
    decreases |es|
  {
    if es != [] {
      StepKeepsInv(w, es[0]);
      RunKeepsInv(Apply(w, es[0]), es[1..]);
    }
  }

  // ---------------------------------------------------------------- main results

  /**
   At most once: over every run from the first start, at most one give ever hands anything out
   under a key, and never more units than the payload of the job that gave.
   */
  lemma AtMostOnce(es: seq<Event>, key: string)
    requires Legal(FirstStart(), es)
    ensures var h := Run(FirstStart(), es).hist;
            && Count(h.episodes, key) <= 1
            && (Count(h.handed, key) > 0 ==> key in h.giver && h.handed[key] <= h.giver[key].units)
  {
    RunKeepsInv(FirstStart(), es);
  }

  /**
   Truthful acknowledgements: the backend is told "complete" only for a key whose record is
   durably completed and whose every unit was handed out, and only for a payload with the
   fingerprint of the one that was given.
   */
  lemma AckIsTruthful(es: seq<Event>, job: Job)
    requires Legal(FirstStart(), es) && Givable(job.deliveryType)
    requires job.Key() in Run(FirstStart(), es).hist.acked
    ensures var w := Run(FirstStart(), es);
            && Durable(w, job.Key(), Completed)
            && job.Key() in w.hist.giver && job.Key() in w.hist.handed
            && w.hist.handed[job.Key()] == w.hist.giver[job.Key()].units > 0
            && FingerprintOf(w.hist.acked[job.Key()].payload) == FingerprintOf(w.hist.giver[job.Key()].payload)
  {
    RunKeepsInv(FirstStart(), es);
    GivableKeysAreOwned(job.deliveryType, job.deliveryKey);
    GiversAreValid(FirstStart(), es);
    PrintsStayMatched(FirstStart(), es);
  }

  predicate HasPrint(w: World, key: string, payload: bytes) {
    w.disk.Some? && key in w.disk.value && w.disk.value[key].fingerprint == FingerprintOf(payload)
  }

  // What was given, what is being worked on and what was acknowledged all have their record's fingerprint.
  ghost predicate PrintsMatch(w: World) {
    && (forall k :: k in w.hist.giver ==> HasPrint(w, k, w.hist.giver[k].payload))
    && (forall k :: k in w.hist.acked && Owned(k) ==> HasPrint(w, k, w.hist.acked[k].payload))
    && (w.pc.AtMark? || w.pc.AtGive? || w.pc.AtComplete? || (w.pc.AtReply? && w.pc.reply == Ack && Owned(w.pc.job.Key())) ==>
          HasPrint(w, w.pc.job.Key(), w.pc.job.payload))
  }

  // A step that keeps the fingerprint of every record it does not remove.
  lemma SamePrintsMatch(w: World, w': World)
    requires PrintsMatch(w) && w'.hist.giver == w.hist.giver && w'.hist.acked == w.hist.acked
    requires forall k :: k in w.hist.giver || (k in w.hist.acked && Owned(k)) ==>
                           w.disk.Some? && w'.disk.Some? && k in w.disk.value && k in w'.disk.value &&
                           w'.disk.value[k].fingerprint == w.disk.value[k].fingerprint
    requires w'.pc.AtMark? || w'.pc.AtGive? || w'.pc.AtComplete? || (w'.pc.AtReply? && w'.pc.reply == Ack && Owned(w'.pc.job.Key())) ==>
               HasPrint(w', w'.pc.job.Key(), w'.pc.job.payload)
    ensures PrintsMatch(w')
  {
  }

  lemma BeginKeepsRecord(w: World, persisted: bool, key: string)
    requires InSync(w) && w.pc.AtBegin? && w.disk.Some? && key in w.disk.value
    ensures var w' := ApplyBegin(w, persisted);
            w'.disk.Some? && key in w'.disk.value && w'.disk.value[key] == w.disk.value[key]
  {
  }

  // A begun or already completed job has the fingerprint of its record.
  lemma BeginMatches(w: World, persisted: bool)
    requires InSync(w) && w.pc.AtBegin?
    ensures var w' := ApplyBegin(w, persisted);
            w'.pc.AtMark? || (w'.pc.AtReply? && w'.pc.reply == Ack) ==> HasPrint(w', w'.pc.job.Key(), w'.pc.job.payload)
  {
  }

  lemma BeginKeepsPrints(w: World, persisted: bool)
    requires InSync(w) && HandedIsRecorded(w) && AckedIsCompleted(w) && PrintsMatch(w) && w.pc.AtBegin?
    ensures PrintsMatch(ApplyBegin(w, persisted))
  {
    forall k | k in w.hist.giver || (k in w.hist.acked && Owned(k))
      ensures w.disk.Some? && k in w.disk.value
      ensures ApplyBegin(w, persisted).disk.Some? && k in ApplyBegin(w, persisted).disk.value
      ensures ApplyBegin(w, persisted).disk.value[k].fingerprint == w.disk.value[k].fingerprint
    {
      assert w.disk.Some? && k in w.disk.value;
      BeginKeepsRecord(w, persisted, k);
    }
    BeginMatches(w, persisted);
    SamePrintsMatch(w, ApplyBegin(w, persisted));
  }

  lemma MarkKeepsPrints(w: World, persisted: bool)
    requires Inv(w) && PrintsMatch(w) && w.pc.AtMark?
    ensures PrintsMatch(ApplyMark(w, persisted))
  {
    SamePrintsMatch(w, ApplyMark(w, persisted));
  }

  lemma CompleteKeepsPrints(w: World, persisted: bool)
    requires Inv(w) && PrintsMatch(w) && w.pc.AtComplete?
    ensures PrintsMatch(ApplyComplete(w, persisted))
  {
    SamePrintsMatch(w, ApplyComplete(w, persisted));
  }

  lemma AbortKeepsPrints(w: World, persisted: bool)
    requires Inv(w) && PrintsMatch(w) && w.pc.AtAbort?
    ensures PrintsMatch(ApplyAbort(w, persisted))
  {
    SamePrintsMatch(w, ApplyAbort(w, persisted));
  }

  // A step that leaves the file alone.
  lemma QuietKeepsPrints(w: World, e: Event)
    requires PrintsMatch(w) && HandedIsRecorded(w) && PcConsistent(w) && Enabled(w, e)
    requires e.Claim? || e.HandOut? || e.EndGive? || e.Send? || e.Crash? || e.Start?
    requires w.disk.None? ==> w.hist.giver == map[] && forall k :: k in w.hist.acked ==> !Owned(k)
    ensures PrintsMatch(Apply(w, e))
  {
  }

  lemma OtherKeepsPrints(w: World, d: Deliveries)
    requires Inv(w) && PrintsMatch(w) && Enabled(w, OtherProtocol(d))
    ensures PrintsMatch(Apply(w, OtherProtocol(d)))
  {
    SamePrintsMatch(w, Apply(w, OtherProtocol(d)));
  }

  lemma StepKeepsPrints(w: World, e: Event)
    requires Inv(w) && PrintsMatch(w) && Enabled(w, e)
    ensures PrintsMatch(Apply(w, e))
  {
    match e
    case Begin(persisted) => BeginKeepsPrints(w, persisted);
    case Mark(persisted) => MarkKeepsPrints(w, persisted);
    case Complete(persisted) => CompleteKeepsPrints(w, persisted);
    case Abort(persisted) => AbortKeepsPrints(w, persisted);
    case OtherProtocol(d) => OtherKeepsPrints(w, d);
    case _ =>
      assert w.disk.None? ==> forall k :: k !in w.hist.giver;
      QuietKeepsPrints(w, e);
  }

  lemma {:induction false} PrintsStayMatched(w: World, es: seq<Event>)
    requires Inv(w) && PrintsMatch(w) && Legal(w, es)
    ensures PrintsMatch(Run(w, es))
    decreases |es|
  {
    if es != [] {
      StepKeepsInv(w, es[0]);
      StepKeepsPrints(w, es[0]);
      PrintsStayMatched(Apply(w, es[0]), es[1..]);
    }
  }

  ghost predicate GiversHaveUnits(w: World) {
    && (forall k :: k in w.hist.giver ==> w.hist.giver[k].units > 0)
  }

  lemma {:induction false} GiversAreValid(w: World, es: seq<Event>)
    requires GiversHaveUnits(w) && Legal(w, es)
    ensures GiversHaveUnits(Run(w, es))
    decreases |es|
  {
    if es != [] {
      GiversAreValid(Apply(w, es[0]), es[1..]);
    }
  }

  /** In every reachable state with a journal loaded, the file equals the process's copy. */
  lemma MemoryEqualsDisk(es: seq<Event>)
    requires Legal(FirstStart(), es)
    ensures var w := Run(FirstStart(), es); w.memory.Some? ==> w.disk == w.memory
  {
    RunKeepsInv(FirstStart(), es);
  }

  // ---------------------------------------------------------------- what is blocked for good

  // An unfinished record nobody is working on.
  ghost predicate Parked(w: World, key: string) {
    && Owned(key) && w.disk.Some? && key in w.disk.value
    && w.disk.value[key].phase != Completed
    && (w.memory.Some? ==> w.memory == w.disk)
    && (w.pc.AtMark? || w.pc.AtGive? || w.pc.AtComplete? || w.pc.AtAbort? ==> w.pc.job.Key() != key)
    && (w.pc.AtReply? && w.pc.reply == Ack ==> w.pc.job.Key() != key)
  }

  lemma StepKeepsParked(w: World, e: Event, key: string)
    requires Parked(w, key) && Enabled(w, e) && (w.pc.Down? ==> w.memory.None?)
    ensures Parked(Apply(w, e), key) && (Apply(w, e).pc.Down? ==> Apply(w, e).memory.None?)
    ensures Apply(w, e).disk.value[key] == w.disk.value[key]
    ensures Count(Apply(w, e).hist.handed, key) == Count(w.hist.handed, key)
    ensures key in Apply(w, e).hist.acked <==> key in w.hist.acked
  {
  }

  /**
   Parking is final: an unfinished record left behind (by a failed transition, a partial give,
   or a crash) is never touched, given or acknowledged again, however often the job is re-sent.
   */
  lemma {:induction false} ParkedForGood(w: World, es: seq<Event>, key: string)
    requires Parked(w, key) && Legal(w, es) && (w.pc.Down? ==> w.memory.None?)
    ensures Parked(Run(w, es), key)
    ensures Run(w, es).disk.value[key] == w.disk.value[key]
    ensures Count(Run(w, es).hist.handed, key) == Count(w.hist.handed, key)
    ensures key in Run(w, es).hist.acked <==> key in w.hist.acked
    decreases |es|
  {
    if es != [] {
      StepKeepsParked(w, es[0], key);
      ParkedForGood(Apply(w, es[0]), es[1..], key);
    }
  }

  /**
   An idle plugin with a loaded journal can still hand a job out exactly when its key has no
   record: with none, some continuation of writes and gives that succeed delivers and
   acknowledges it; with one, no continuation ever hands out another unit.
   */
  lemma DeliverableIffAbsent(w: World, job: Job)
    requires Inv(w) && w.pc.Idle? && w.memory.Some? && job.Valid() && Givable(job.deliveryType)
    ensures job.Key() !in w.memory.value ==>
              exists es :: Legal(w, es) && job.Key() in Run(w, es).hist.acked &&
                           Count(Run(w, es).hist.handed, job.Key()) == job.units
    ensures job.Key() in w.memory.value ==>
              forall es :: Legal(w, es) ==> Count(Run(w, es).hist.handed, job.Key()) == Count(w.hist.handed, job.Key())
  {
    GivableKeysAreOwned(job.deliveryType, job.deliveryKey);
    if job.Key() !in w.memory.value {
      var es := GoodRun(w, job);
    } else {
      forall es | Legal(w, es)
        ensures Count(Run(w, es).hist.handed, job.Key()) == Count(w.hist.handed, job.Key())
      {
        RecordedIsNeverHandedAgain(w, es, job.Key());
      }
    }
  }

  lemma HandOutMany(w: World, n: nat) returns (es: seq<Event>)
    requires w.pc.AtGive? && Givable(w.pc.job.deliveryType) && w.pc.out + n <= w.pc.job.units
    ensures |es| == n && (forall i :: 0 <= i < n ==> es[i] == HandOut) && Legal(w, es)
    ensures var r := Run(w, es);
            && r.memory == w.memory && r.disk == w.disk && r.pc == AtGive(w.pc.job, w.pc.out + n)
            && Count(r.hist.handed, w.pc.job.Key()) == Count(w.hist.handed, w.pc.job.Key()) + n
            && r.hist.acked == w.hist.acked
    decreases n
  {
    if n == 0 {
      es := [];
    } else {
      var rest := HandOutMany(Apply(w, HandOut), n - 1);
      es := [HandOut] + rest;
      assert es[1..] == rest;
    }
  }

  // A fresh job reaches its give step when the journal writes succeed.
  lemma RunToGive(w: World, job: Job) returns (es: seq<Event>)
    requires InSync(w) && w.pc.Idle? && w.memory.Some? && job.Valid() && job.Key() !in w.memory.value
    ensures Legal(w, es)
    ensures var r := Run(w, es);
            && r.pc == AtGive(job, 0) && r.hist == w.hist && r.memory.Some? && r.memory == r.disk
            && job.Key() in r.memory.value
  {
    var w1 := Apply(w, Claim(job, true));
    var w2 := Apply(w1, Begin(true));
    assert w2.pc == AtMark(job);
    var w3 := Apply(w2, Mark(true));
    assert Legal(w3, []) && Run(w3, []) == w3;
    Prepend(w2, Mark(true), []);
    Prepend(w1, Begin(true), [Mark(true)] + []);
    es := [Claim(job, true)] + ([Begin(true)] + ([Mark(true)] + []));
    Prepend(w, Claim(job, true), [Begin(true)] + ([Mark(true)] + []));
  }

  // A give that handed everything out is completed and acknowledged when the write succeeds.
  lemma RunToAck(w: World, job: Job) returns (es: seq<Event>)
    requires w.pc == AtGive(job, job.units) && Givable(job.deliveryType)
    requires w.memory.Some? && job.Key() in w.memory.value
    ensures Legal(w, es)
    ensures job.Key() in Run(w, es).hist.acked && Run(w, es).hist.handed == w.hist.handed
  {
    var w1 := Apply(w, EndGive(GaveAll));
    var w2 := Apply(w1, Complete(true));
    assert w2.pc == AtReply(job, Ack);
    var w3 := Apply(w2, Send);
    assert Legal(w3, []) && Run(w3, []) == w3;
    Prepend(w2, Send, []);
    Prepend(w1, Complete(true), [Send] + []);
    es := [EndGive(GaveAll)] + ([Complete(true)] + ([Send] + []));
    Prepend(w, EndGive(GaveAll), [Complete(true)] + ([Send] + []));
  }

  lemma GoodRun(w: World, job: Job) returns (es: seq<Event>)
    requires Inv(w) && w.pc.Idle? && w.memory.Some? && job.Valid() && Givable(job.deliveryType)
    requires job.Key() !in w.memory.value && Owned(job.Key())
    ensures Legal(w, es) && job.Key() in Run(w, es).hist.acked
    ensures Count(Run(w, es).hist.handed, job.Key()) == job.units
  {
    var start := RunToGive(w, job);
    var given := Run(w, start);
    var gives := HandOutMany(given, job.units);
    var end := RunToAck(Run(given, gives), job);
    RunConcat(given, gives, end);
    RunConcat(w, start, gives + end);
    es := start + (gives + end);
    assert job.Key() !in w.hist.giver;
  }

  lemma Prepend(w: World, e: Event, es: seq<Event>)
    requires Enabled(w, e) && Legal(Apply(w, e), es)
    ensures Legal(w, [e] + es) && Run(w, [e] + es) == Run(Apply(w, e), es)
  {
    assert ([e] + es)[1..] == es;
  }

  // A completed record is as final as a parked one.
  ghost predicate Settled(w: World, key: string) {
    && Owned(key) && Durable(w, key, Completed)
    && (w.memory.Some? ==> w.memory == w.disk)
    && (w.pc.AtMark? || w.pc.AtGive? || w.pc.AtAbort? ==> w.pc.job.Key() != key)
  }

  lemma StepKeepsSettled(w: World, e: Event, key: string)
    requires Settled(w, key) && Enabled(w, e) && (w.pc.Down? ==> w.memory.None?)
    ensures Settled(Apply(w, e), key) && (Apply(w, e).pc.Down? ==> Apply(w, e).memory.None?)
    ensures Count(Apply(w, e).hist.handed, key) == Count(w.hist.handed, key)
  {
  }

  /** Once completed, always completed, and nothing more is handed out. */
  lemma {:induction false} CompletedForGood(w: World, es: seq<Event>, key: string)
    requires Settled(w, key) && Legal(w, es) && (w.pc.Down? ==> w.memory.None?)
    ensures Settled(Run(w, es), key)
    ensures Count(Run(w, es).hist.handed, key) == Count(w.hist.handed, key)
    decreases |es|
  {
    if es != [] {
      StepKeepsSettled(w, es[0], key);
      CompletedForGood(Apply(w, es[0]), es[1..], key);
    }
  }

  lemma RecordedIsNeverHandedAgain(w: World, es: seq<Event>, key: string)
    requires Inv(w) && w.pc.Idle? && w.memory.Some? && Owned(key) && key in w.memory.value && Legal(w, es)
    ensures Count(Run(w, es).hist.handed, key) == Count(w.hist.handed, key)
  {
    if w.memory.value[key].phase == Completed {
      CompletedForGood(w, es, key);
    } else {
      ParkedForGood(w, es, key);
    }
  }
}
