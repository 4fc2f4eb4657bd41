/**
 Selling a live dino on the marketplace, with recovery (Commands.cpp, the prepare-lock callback
 of SellDinoCommand; HeartShop.cpp, ConfirmPreparedDinoListing and RecoverPendingDinoListings).

 A sale records the whole listing payload as mutating before it destroys the dino, and confirms
 it to the backend afterwards; every poll looks at unfinished listing records again. The process
 may crash between any two steps and any write may fail. Destroying a dino takes effect, it is
 final, and looking a dino up by its ids is exact.

 The backend (plugin.controller.ts, prepareLock and confirmLock) lists a confirmed lock unless its
 ten minutes are over or another listing carries the asset fingerprint; a lock that is listed
 gets the same answer again.
 */
module DinoListing {
  import opened Journal
  import opened Fingerprints
  import opened Options

  const LISTING := "dino_listing"
  const PREFIX := "dino_listing:"

  function Key(lock: string): (key: string)
    ensures key == PREFIX + lock && key[|PREFIX|..] == lock
  {
    assert LISTING + ":" == PREFIX;
    MakeKey(LISTING, lock)
  }

  datatype Pc =
    | Down
    | Idle
    | SellBegin(lock: string, payload: bytes)
    | SellMark(lock: string, payload: bytes)
    | SellAbort(lock: string)
    | SellDestroy(lock: string, payload: bytes)
    | SellConfirm(lock: string, payload: bytes)

  /**
   issued:    asset locks the backend has granted;
   expired:   locks whose ten minutes are over;
   taken:     the dino each sale destroyed;
   dead:      dinos that no longer exist, for whatever reason;
   confirmed: locks for which a confirmation was sent, with the asset fingerprint it carried;
   listed:    locks the backend turned into listings, with the asset fingerprint of the listing.
   */
  datatype History = History(issued: set<string>, expired: set<string>, taken: map<string, nat>, dead: set<nat>,
                             confirmed: map<string, string>, listed: map<string, string>)

  // `dinoOf` reads the two dino ids back from a listing payload, `printOf` the asset fingerprint.
  datatype World = World(dinoOf: bytes -> nat, printOf: bytes -> string,
                         memory: Option<Deliveries>, disk: Option<Deliveries>, pc: Pc, alive: set<nat>, hist: History)

  datatype Event =
    | LockGranted(lock: string, payload: bytes)
    | Begin(persisted: bool)
    | Mark(persisted: bool)
    | CancelSale(persisted: bool)
    | Destroy
    | Confirm
    | Recover(lock: string, persisted: bool)
    | BackendLists(lock: string)
    | LockExpires(lock: string)
    | Confirmed(lock: string, persisted: bool)
    | DinoDies(dino: nat)
    | DinoBorn(dino: nat)
    | OtherProtocol(deliveries: Deliveries)
    | Crash
    | Start(readable: bool, persisted: bool)

  function FirstStart(dinoOf: bytes -> nat, printOf: bytes -> string, alive: set<nat>): World {
    World(dinoOf, printOf, None, None, Down, alive, History({}, {}, map[], {}, map[], map[]))
  }

  // No listing carries the asset fingerprint yet; the backend keeps it unique.
  predicate Unused(w: World, fingerprint: string) {
    forall l :: l in w.hist.listed ==> w.hist.listed[l] != fingerprint
  }

  function StoreOf(w: World): Store {
    Store(if w.memory.Some? then w.memory.value else map[], w.disk)
  }

  function WithStore(w: World, s: Store, pc: Pc): World {
    w.(memory := Some(s.memory), disk := s.disk, pc := pc)
  }

  ghost predicate Enabled(w: World, e: Event) {
    match e
    case LockGranted(_, _) => w.pc.Idle?
    case Begin(_) => w.pc.SellBegin?
    case Mark(_) => w.pc.SellMark?
    case CancelSale(_) => w.pc.SellAbort?
    case Destroy => w.pc.SellDestroy?
    case Confirm => w.pc.SellConfirm?
    case Recover(lock, _) => w.pc.Idle? && w.memory.Some? && Key(lock) in w.memory.value && w.memory.value[Key(lock)].phase != Completed
    case BackendLists(lock) =>
      lock in w.hist.confirmed && (lock in w.hist.listed || (lock !in w.hist.expired && Unused(w, w.hist.confirmed[lock])))
    case LockExpires(lock) => lock in w.hist.issued
    case Confirmed(lock, _) => w.pc.Idle? && w.memory.Some? && lock in w.hist.listed
    case DinoDies(dino) => (w.pc.Idle? || w.pc.Down?) && dino in w.alive
    case DinoBorn(dino) => dino !in w.alive && dino !in w.hist.dead
    case OtherProtocol(d) =>
      w.pc.Idle? && w.memory.Some? &&
      (forall lock :: Keeps(w.memory.value, d, Key(lock))) &&
      (forall k :: k in d && d[k].deliveryType == LISTING ==> k in w.memory.value && d[k] == w.memory.value[k])
    case Crash => !w.pc.Down?
    case Start(_, _) => w.pc.Down?
  }

  function Apply(w: World, e: Event): World
    requires Enabled(w, e)
  {
    match e
    case LockGranted(lock, payload) =>
      // A dino that is gone by now cancels the sale before anything is recorded.
      w.(hist := w.hist.(issued := w.hist.issued + {lock}),
         pc := if w.dinoOf(payload) in w.alive then SellBegin(lock, payload) else Idle)
    case Begin(persisted) => ApplyBegin(w, persisted)
    case Mark(persisted) => ApplyMark(w, persisted)
    case CancelSale(persisted) =>
      if w.memory.None? then w.(pc := Idle)
      else WithStore(w, AfterAbort(StoreOf(w), Key(w.pc.lock), persisted), Idle)
    case Destroy =>
      var dino := w.dinoOf(w.pc.payload);
      w.(alive := w.alive - {dino}, pc := SellConfirm(w.pc.lock, w.pc.payload),
         hist := w.hist.(taken := w.hist.taken[w.pc.lock := dino], dead := w.hist.dead + {dino}))
    case Confirm => w.(pc := Idle, hist := w.hist.(confirmed := w.hist.confirmed[w.pc.lock := w.printOf(w.pc.payload)]))
    case Recover(lock, persisted) => ApplyRecover(w, lock, persisted)
    case BackendLists(lock) =>
      // A lock that is listed already gets the same answer again.
      if lock in w.hist.listed then w
      else w.(hist := w.hist.(listed := w.hist.listed[lock := w.hist.confirmed[lock]]))
    case LockExpires(lock) => w.(hist := w.hist.(expired := w.hist.expired + {lock}))
    case Confirmed(lock, persisted) => WithStore(w, AfterComplete(StoreOf(w), Key(lock), persisted), Idle)
    case DinoDies(dino) => w.(alive := w.alive - {dino}, hist := w.hist.(dead := w.hist.dead + {dino}))
    case DinoBorn(dino) => w.(alive := w.alive + {dino})
    case OtherProtocol(d) => w.(memory := Some(d), disk := Some(d))
    case Crash => w.(memory := None, pc := Down)
    case Start(readable, persisted) =>
      if w.disk.None? then
        if persisted then w.(memory := Some(map[]), disk := Some(map[]), pc := Idle) else w.(pc := Idle)
      else w.(memory := if readable then w.disk else None, pc := Idle)
  }

  function ApplyBegin(w: World, persisted: bool): World
    requires w.pc.SellBegin?
  {
    var lock, payload := w.pc.lock, w.pc.payload;
    if w.memory.None? then w.(pc := SellAbort(lock))
    else
      var s := StoreOf(w);
      WithStore(w, AfterBegin(s, LISTING, lock, payload, persisted),
                if BeginOutcome(s, LISTING, lock, payload, persisted) == Started then SellMark(lock, payload) else SellAbort(lock))
  }

  function ApplyMark(w: World, persisted: bool): World
    requires w.pc.SellMark?
  {
    var lock, payload, s := w.pc.lock, w.pc.payload, StoreOf(w);
    if w.memory.None? then w.(pc := SellAbort(lock))
    else WithStore(w, AfterMark(s, Key(lock), persisted),
                   if MarkAllowed(s, Key(lock)) && persisted then SellDestroy(lock, payload) else SellAbort(lock))
  }

  // Prepared: the game was not touched, so drop it. Mutating: drop it if the dino is still
  // there, otherwise confirm it again. Anything else is left alone.
  function ApplyRecover(w: World, lock: string, persisted: bool): World
    requires Enabled(w, Recover(lock, persisted))
  {
    var record := w.memory.value[Key(lock)];
    if record.payload == [] then w
    else if record.phase == Prepared || (record.phase == Mutating && w.dinoOf(record.payload) in w.alive) then
      WithStore(w, AfterAbort(StoreOf(w), Key(lock), persisted), Idle)
    else if record.phase == Mutating then w.(hist := w.hist.(confirmed := w.hist.confirmed[lock := w.printOf(record.payload)]))
    else w
  }

  ghost predicate Legal(w: World, es: seq<Event>)
    decreases |es|
  {
    es == [] || (Enabled(w, es[0]) && Legal(Apply(w, es[0]), es[1..]))
  }

  function Run(w: World, es: seq<Event>): World
    requires Legal(w, es)
    decreases |es|
  {
    if es == [] then w else Run(Apply(w, es[0]), es[1..])
  }

  // The backend never grants the same lock twice, and a listing payload is never empty text.
  predicate FreshLock(w: World, e: Event) {
    e.LockGranted? ==> e.lock !in w.hist.issued && e.payload != []
  }

  ghost predicate FreshLocks(w: World, es: seq<Event>)
    requires Legal(w, es)
    decreases |es|
  {
    es == [] || (FreshLock(w, es[0]) && FreshLocks(Apply(w, es[0]), es[1..]))
  }

  // ---------------------------------------------------------------- the inductive invariant

  predicate Recorded(w: World, lock: string, phase: Phase) {
    w.disk.Some? && Key(lock) in w.disk.value && w.disk.value[Key(lock)].phase == phase
  }

  // The dino named by the payload stored under a lock.
  function RecordedDino(w: World, lock: string): nat
    requires w.disk.Some? && Key(lock) in w.disk.value
  {
    w.dinoOf(w.disk.value[Key(lock)].payload)
  }

  // The asset fingerprint in that payload.
  function RecordedPrint(w: World, lock: string): string
    requires w.disk.Some? && Key(lock) in w.disk.value
  {
    w.printOf(w.disk.value[Key(lock)].payload)
  }

  predicate Secured(w: World, lock: string) {
    Recorded(w, lock, Mutating) || Recorded(w, lock, Completed)
  }

  ghost predicate InSync(w: World) {
    && (w.memory.Some? ==> w.disk == w.memory)
    && (w.pc.Down? ==> w.memory.None?)
    && w.alive !! w.hist.dead
  }

  ghost predicate RecordsAreIssued(w: World) {
    forall lock :: w.disk.Some? && Key(lock) in w.disk.value ==>
                     && lock in w.hist.issued
                     && w.disk.value[Key(lock)].payload != []
                     && RecordedDino(w, lock) in w.alive + w.hist.dead
                     && (w.disk.value[Key(lock)].phase == Completed ==> lock in w.hist.listed)
  }

  /** A dino taken by a sale has its payload on disk, mutating or completed, and is gone. */
  ghost predicate TakenIsSecured(w: World) {
    forall lock :: lock in w.hist.taken ==>
                     && lock in w.hist.issued
                     && Secured(w, lock) && RecordedDino(w, lock) == w.hist.taken[lock]
                     && w.hist.taken[lock] in w.hist.dead
  }

  /** A confirmation was only sent for a recorded dino that is gone, and carries its fingerprint. */
  ghost predicate ConfirmedIsGone(w: World) {
    && w.hist.listed.Keys <= w.hist.confirmed.Keys
    && forall lock :: lock in w.hist.confirmed ==>
                        && Secured(w, lock) && RecordedDino(w, lock) in w.hist.dead
                        && w.hist.confirmed[lock] == RecordedPrint(w, lock)
  }

  // A record of this type sits under the key its own id makes.
  ghost predicate IdsMatchKeys(w: World) {
    && (forall k :: w.disk.Some? && k in w.disk.value && w.disk.value[k].deliveryType == LISTING ==> k == Key(w.disk.value[k].deliveryId))
    && (forall lock :: w.disk.Some? && Key(lock) in w.disk.value ==>
                         w.disk.value[Key(lock)].deliveryType == LISTING && w.disk.value[Key(lock)].deliveryId == lock)
  }

  predicate Untouched(w: World, lock: string) {
    lock in w.hist.issued && lock !in w.hist.taken && lock !in w.hist.confirmed
  }

  ghost predicate PcConsistent(w: World) {
    match w.pc
    case Down => true
    case Idle => true
    case SellBegin(lock, payload) =>
      Untouched(w, lock) && payload != [] && w.dinoOf(payload) in w.alive && (w.disk.Some? ==> Key(lock) !in w.disk.value)
    case SellMark(lock, payload) =>
      Untouched(w, lock) && w.dinoOf(payload) in w.alive && w.memory.Some? &&
      Recorded(w, lock, Prepared) && w.disk.value[Key(lock)].payload == payload
    case SellAbort(lock) => Untouched(w, lock) && !Recorded(w, lock, Completed)
    case SellDestroy(lock, payload) =>
      Untouched(w, lock) && w.dinoOf(payload) in w.alive &&
      Recorded(w, lock, Mutating) && w.disk.value[Key(lock)].payload == payload
    case SellConfirm(lock, payload) => lock in w.hist.taken && Secured(w, lock) && w.disk.value[Key(lock)].payload == payload
  }

  ghost predicate Inv(w: World) {
    InSync(w) && IdsMatchKeys(w) && RecordsAreIssued(w) && TakenIsSecured(w) && ConfirmedIsGone(w) && PcConsistent(w)
  }

  // A journal step that touches the record of one lock only.
  ghost predicate OthersKept(w: World, w': World, lock: string) {
    && w.disk.Some? && w'.disk.Some? && w'.dinoOf == w.dinoOf && w'.printOf == w.printOf
    && forall k :: k != Key(lock) ==> Keeps(w.disk.value, w'.disk.value, k)
  }

  lemma OthersKeptSame(w: World, w': World, lock: string)
    requires OthersKept(w, w', lock)
    ensures forall l, p :: l != lock ==> (Recorded(w', l, p) <==> Recorded(w, l, p))
    ensures forall l :: l != lock && Key(l) in w'.disk.value ==>
              Key(l) in w.disk.value && w'.disk.value[Key(l)] == w.disk.value[Key(l)]
  {
    forall l | l != lock
      ensures Keeps(w.disk.value, w'.disk.value, Key(l))
    {
      assert Key(l) != Key(lock);
    }
  }

  lemma BeginKeepsInv(w: World, persisted: bool)
    requires Inv(w) && w.pc.SellBegin?
    ensures Inv(ApplyBegin(w, persisted))
  {
    if w.memory.Some? {
      OthersKeptSame(w, ApplyBegin(w, persisted), w.pc.lock);
    }
  }

  lemma MarkKeepsInv(w: World, persisted: bool)
    requires Inv(w) && w.pc.SellMark?
    ensures Inv(ApplyMark(w, persisted))
  {
    OthersKeptSame(w, ApplyMark(w, persisted), w.pc.lock);
  }

  lemma CancelKeepsInv(w: World, persisted: bool)
    requires Inv(w) && w.pc.SellAbort?
    ensures Inv(Apply(w, CancelSale(persisted)))
  {
    if w.memory.Some? {
      OthersKeptSame(w, Apply(w, CancelSale(persisted)), w.pc.lock);
    }
  }

  lemma ConfirmedKeepsInv(w: World, lock: string, persisted: bool)
    requires Inv(w) && Enabled(w, Confirmed(lock, persisted))
    ensures Inv(Apply(w, Confirmed(lock, persisted)))
  {
    OthersKeptSame(w, Apply(w, Confirmed(lock, persisted)), lock);
  }

  lemma RecoverKeepsInv(w: World, lock: string, persisted: bool)
    requires Inv(w) && Enabled(w, Recover(lock, persisted))
    ensures Inv(ApplyRecover(w, lock, persisted))
  {
    OthersKeptSame(w, ApplyRecover(w, lock, persisted), lock);
  }

  lemma OtherKeepsInv(w: World, d: Deliveries)
    requires Inv(w) && Enabled(w, OtherProtocol(d))
    ensures Inv(Apply(w, OtherProtocol(d)))
  {
    var w' := Apply(w, OtherProtocol(d));
    assert forall lock :: Keeps(w.disk.value, w'.disk.value, Key(lock));
    assert forall lock, p :: Recorded(w', lock, p) <==> Recorded(w, lock, p);
    assert forall lock :: Key(lock) in w'.disk.value ==> RecordedDino(w', lock) == RecordedDino(w, lock);
  }

  lemma LockGrantedKeepsInv(w: World, lock: string, payload: bytes)
    requires Inv(w) && w.pc.Idle? && FreshLock(w, LockGranted(lock, payload))
    ensures Inv(Apply(w, LockGranted(lock, payload)))
  {
  }

  lemma DestroyKeepsInv(w: World)
    requires Inv(w) && w.pc.SellDestroy?
    ensures Inv(Apply(w, Destroy))
  {
  }

  lemma ConfirmKeepsInv(w: World)
    requires Inv(w) && w.pc.SellConfirm?
    ensures Inv(Apply(w, Confirm))
  {
  }

  lemma CrashKeepsInv(w: World)
    requires Inv(w) && Enabled(w, Crash)
    ensures Inv(Apply(w, Crash))
  {
  }

  lemma StartKeepsInv(w: World, readable: bool, persisted: bool)
    requires Inv(w) && w.pc.Down?
    ensures Inv(Apply(w, Start(readable, persisted)))
  {
  }

  lemma ListsKeepsInv(w: World, lock: string)
    requires Inv(w) && Enabled(w, BackendLists(lock))
    ensures Inv(Apply(w, BackendLists(lock)))
  {
  }

  lemma DeathKeepsInv(w: World, dino: nat)
    requires Inv(w) && Enabled(w, DinoDies(dino))
    ensures Inv(Apply(w, DinoDies(dino)))
  {
  }

  lemma BirthKeepsInv(w: World, dino: nat)
    requires Inv(w) && Enabled(w, DinoBorn(dino))
    ensures Inv(Apply(w, DinoBorn(dino)))
  {
  }

  lemma StepKeepsInv(w: World, e: Event)
    requires Inv(w) && Enabled(w, e) && FreshLock(w, e)
    ensures Inv(Apply(w, e))
  {
    match e
    case LockGranted(lock, payload) => LockGrantedKeepsInv(w, lock, payload);
    case Begin(p) => BeginKeepsInv(w, p);
    case Mark(p) => MarkKeepsInv(w, p);
    case CancelSale(p) => CancelKeepsInv(w, p);
    case Destroy => DestroyKeepsInv(w);
    case Confirmed(lock, p) => ConfirmedKeepsInv(w, lock, p);
    case Recover(lock, p) => RecoverKeepsInv(w, lock, p);
    case OtherProtocol(d) => OtherKeepsInv(w, d);
    case BackendLists(lock) => ListsKeepsInv(w, lock);
    case LockExpires(_) =>
    case DinoDies(dino) => DeathKeepsInv(w, dino);
    case DinoBorn(dino) => BirthKeepsInv(w, dino);
    case Confirm => ConfirmKeepsInv(w);
    case Crash => CrashKeepsInv(w);
    case Start(readable, persisted) => StartKeepsInv(w, readable, persisted);
  }

  lemma {:induction false} RunKeepsInv(w: World, es: seq<Event>)
    requires Inv(w) && Legal(w, es) && FreshLocks(w, es)
    ensures Inv(Run(w, es))
    decreases |es|
  {
    if es != [] {
      StepKeepsInv(w, es[0]);
      RunKeepsInv(Apply(w, es[0]), es[1..]);
    }
  }

  /** No two listings carry one asset fingerprint; a listing has that of its record. */
  ghost predicate ListedApart(w: World) {
    && (forall l1, l2 :: l1 in w.hist.listed && l2 in w.hist.listed && l1 != l2 ==> w.hist.listed[l1] != w.hist.listed[l2])
    && (forall l :: l in w.hist.listed && l in w.hist.confirmed ==> w.hist.listed[l] == w.hist.confirmed[l])
    && w.hist.expired <= w.hist.issued
  }

  lemma StepKeepsApart(w: World, e: Event)
    requires Inv(w) && ListedApart(w) && Enabled(w, e)
    ensures ListedApart(Apply(w, e))
  {
    match e
    case BackendLists(lock) => ListsKeepsApart(w, lock);
    case Confirm => ConfirmKeepsApart(w);
    case Recover(lock, persisted) => RecoverKeepsApart(w, lock, persisted);
    case _ => QuietKeepsApart(w, Apply(w, e));
  }

  lemma QuietKeepsApart(w: World, w': World)
    requires ListedApart(w) && w'.hist.listed == w.hist.listed && w'.hist.confirmed == w.hist.confirmed
    requires w'.hist.expired <= w'.hist.issued
    ensures ListedApart(w')
  {
  }

  lemma ConfirmKeepsApart(w: World)
    requires Inv(w) && ListedApart(w) && w.pc.SellConfirm?
    ensures ListedApart(Apply(w, Confirm))
  {
    SameListedApart(w, Apply(w, Confirm));
  }

  lemma RecoverKeepsApart(w: World, lock: string, persisted: bool)
    requires Inv(w) && ListedApart(w) && Enabled(w, Recover(lock, persisted))
    ensures ListedApart(ApplyRecover(w, lock, persisted))
  {
    SameListedApart(w, ApplyRecover(w, lock, persisted));
  }

  lemma ListsKeepsApart(w: World, lock: string)
    requires ListedApart(w) && Enabled(w, BackendLists(lock))
    ensures ListedApart(Apply(w, BackendLists(lock)))
  {
  }

  // A confirmation sent again carries the same fingerprint.
  lemma SameListedApart(w: World, w': World)
    requires ListedApart(w) && w'.hist.listed == w.hist.listed && w'.hist.issued == w.hist.issued && w'.hist.expired == w.hist.expired
    requires forall l :: l in w.hist.listed ==> l in w.hist.confirmed && l in w'.hist.confirmed && w'.hist.confirmed[l] == w.hist.confirmed[l]
    ensures ListedApart(w')
  {
  }

  lemma {:induction false} RunKeepsApart(w: World, es: seq<Event>)
    requires Inv(w) && ListedApart(w) && Legal(w, es) && FreshLocks(w, es)
    ensures ListedApart(Run(w, es))
    decreases |es|
  {
    if es != [] {
      StepKeepsInv(w, es[0]);
      StepKeepsApart(w, es[0]);
      RunKeepsApart(Apply(w, es[0]), es[1..]);
    }
  }

  // ---------------------------------------------------------------- main results

  /**
   Conservation: over every run with fresh locks, a dino a sale destroyed is on disk with its
   payload, mutating or completed; a confirmation or listing names a dino that is not alive; and
   a completed record is one the backend listed. So the payload of a sold dino is never lost,
   and no dino is both alive and listed; whether it can still be listed is another matter.
   */
  lemma SaleConservesDinos(dinoOf: bytes -> nat, printOf: bytes -> string, alive: set<nat>, es: seq<Event>, lock: string)
    requires Legal(FirstStart(dinoOf, printOf, alive), es) && FreshLocks(FirstStart(dinoOf, printOf, alive), es)
    ensures var w := Run(FirstStart(dinoOf, printOf, alive), es);
            && (lock in w.hist.taken ==>
                  Secured(w, lock) && RecordedDino(w, lock) == w.hist.taken[lock] && w.hist.taken[lock] !in w.alive)
            && (lock in w.hist.confirmed ==> Secured(w, lock) && RecordedDino(w, lock) !in w.alive)
            && (lock in w.hist.listed ==> Secured(w, lock) && RecordedDino(w, lock) !in w.alive)
            && (Recorded(w, lock, Completed) ==> lock in w.hist.listed)
  {
    RunKeepsInv(FirstStart(dinoOf, printOf, alive), es);
  }

  /**
   Recovery never gives up a taken dino: it drops a mutating record only while the dino it
   names is alive, and otherwise leaves the record and confirms it.
   */
  lemma RecoveryDropsOnlyLiveDinos(w: World, lock: string, persisted: bool)
    requires Inv(w) && Enabled(w, Recover(lock, persisted))
    ensures var w' := Apply(w, Recover(lock, persisted));
            && (Recorded(w, lock, Mutating) && Key(lock) !in w'.disk.value ==> RecordedDino(w, lock) in w.alive && lock !in w.hist.taken)
            && (Recorded(w, lock, Mutating) && RecordedDino(w, lock) !in w.alive ==> w'.disk == w.disk && lock in w'.hist.confirmed)
  {
  }

  // ---------------------------------------------------------------- what can still be listed

  // The backend would turn a confirmation for this record into a listing.
  ghost predicate Open(w: World, lock: string)
    requires w.disk.Some? && Key(lock) in w.disk.value
  {
    lock !in w.hist.expired && Unused(w, RecordedPrint(w, lock))
  }

  ghost predicate CanBeListed(w: World, lock: string) {
    exists es :: Legal(w, es) && FreshLocks(w, es) && lock in Run(w, es).hist.listed
  }

  // Nothing changes the fingerprint a lock's record, sale and confirmation carry.
  ghost predicate Carries(w: World, lock: string, fingerprint: string) {
    && lock in w.hist.issued
    && (lock in w.hist.confirmed ==> w.hist.confirmed[lock] == fingerprint)
    && (w.disk.Some? && Key(lock) in w.disk.value ==> RecordedPrint(w, lock) == fingerprint)
    && ((w.pc.SellBegin? || w.pc.SellMark? || w.pc.SellDestroy? || w.pc.SellConfirm?) && w.pc.lock == lock ==>
          w.printOf(w.pc.payload) == fingerprint)
  }

  lemma StepKeepsCarries(w: World, e: Event, lock: string, fingerprint: string)
    requires InSync(w) && Carries(w, lock, fingerprint) && Enabled(w, e) && FreshLock(w, e)
    ensures Carries(Apply(w, e), lock, fingerprint)
  {
    if e.OtherProtocol? {
      assert Keeps(w.disk.value, Apply(w, e).disk.value, Key(lock));
    }
  }

  // The backend will refuse every confirmation of the lock.
  ghost predicate Shut(w: World, lock: string, fingerprint: string) {
    Carries(w, lock, fingerprint) && lock !in w.hist.listed && (lock in w.hist.expired || !Unused(w, fingerprint))
  }

  lemma StepKeepsShut(w: World, e: Event, lock: string, fingerprint: string)
    requires InSync(w) && Shut(w, lock, fingerprint) && Enabled(w, e) && FreshLock(w, e)
    ensures Shut(Apply(w, e), lock, fingerprint)
  {
    StepKeepsCarries(w, e, lock, fingerprint);
    var w' := Apply(w, e);
    if l :| l in w.hist.listed && w.hist.listed[l] == fingerprint {
      assert l in w'.hist.listed && w'.hist.listed[l] == fingerprint;
    }
  }

  lemma {:induction false} RunKeepsShut(w: World, es: seq<Event>, lock: string, fingerprint: string)
    requires Inv(w) && Shut(w, lock, fingerprint) && Legal(w, es) && FreshLocks(w, es)
    ensures Shut(Run(w, es), lock, fingerprint)
    decreases |es|
  {
    if es != [] {
      StepKeepsInv(w, es[0]);
      StepKeepsShut(w, es[0], lock, fingerprint);
      RunKeepsShut(Apply(w, es[0]), es[1..], lock, fingerprint);
    }
  }

  // Recovery finds the dino gone and confirms the record, and the backend lists it.
  lemma ListOne(w: World, lock: string) returns (es: seq<Event>)
    requires Inv(w) && w.pc.Idle? && w.memory.Some? && lock !in w.hist.listed
    requires Recorded(w, lock, Mutating) && RecordedDino(w, lock) !in w.alive && Open(w, lock)
    ensures |es| == 2 && !es[0].LockGranted? && !es[1].LockGranted?
    ensures Legal(w, es) && FreshLocks(w, es)
    ensures Run(w, es) == w.(hist := w.hist.(confirmed := w.hist.confirmed[lock := RecordedPrint(w, lock)],
                                             listed := w.hist.listed[lock := RecordedPrint(w, lock)]))
  {
    var w1 := Apply(w, Recover(lock, true));
    var w2 := Apply(w1, BackendLists(lock));
    assert Legal(w2, []) && FreshLocks(w2, []) && Run(w2, []) == w2;
    Prepend(w1, BackendLists(lock), []);
    es := [Recover(lock, true)] + ([BackendLists(lock)] + []);
    Prepend(w, Recover(lock, true), [BackendLists(lock)] + []);
  }

  // A listed lock is completed by the backend's answer and one good write.
  lemma CompleteListed(w: World, lock: string) returns (es: seq<Event>)
    requires Inv(w) && w.pc.Idle? && w.memory.Some? && lock in w.hist.listed
    ensures |es| <= 1 && Legal(w, es) && FreshLocks(w, es) && Recorded(Run(w, es), lock, Completed)
  {
    if Recorded(w, lock, Completed) {
      es := [];
      assert Legal(w, es) && FreshLocks(w, es) && Run(w, es) == w;
    } else {
      var next := Apply(w, Confirmed(lock, true));
      assert Legal(next, []) && FreshLocks(next, []) && Run(next, []) == next;
      Prepend(w, Confirmed(lock, true), []);
      es := [Confirmed(lock, true)] + [];
    }
  }

  /**
   A dino a sale destroyed can still be listed exactly when it is listed, or its lock has not
   expired and no listing carries its fingerprint; then three steps list it and complete its
   record. A confirmation that comes after the lock's ten minutes is refused for good.
   */
  lemma TakenCanBeFinishedExactly(w: World, lock: string)
    requires Inv(w) && w.pc.Idle? && w.memory.Some? && lock in w.hist.taken
    ensures Secured(w, lock)
    ensures CanBeListed(w, lock) <==> lock in w.hist.listed || Open(w, lock)
    ensures CanBeListed(w, lock) ==>
              exists es :: Legal(w, es) && FreshLocks(w, es) && |es| <= 3 && Recorded(Run(w, es), lock, Completed)
  {
    if lock in w.hist.listed || Open(w, lock) {
      FinishTaken(w, lock);
    } else {
      forall es | Legal(w, es) && FreshLocks(w, es)
        ensures lock !in Run(w, es).hist.listed
      {
        RunKeepsShut(w, es, lock, RecordedPrint(w, lock));
      }
    }
  }

  lemma FinishTaken(w: World, lock: string)
    requires Inv(w) && w.pc.Idle? && w.memory.Some? && lock in w.hist.taken
    requires lock in w.hist.listed || Open(w, lock)
    ensures CanBeListed(w, lock)
    ensures exists es :: Legal(w, es) && FreshLocks(w, es) && |es| <= 3 && Recorded(Run(w, es), lock, Completed)
  {
    if lock in w.hist.listed {
      var done := CompleteListed(w, lock);
      assert Legal(w, []) && FreshLocks(w, []) && Run(w, []) == w;
    } else {
      var listing := ListOne(w, lock);
      RunKeepsInv(w, listing);
      var done := CompleteListed(Run(w, listing), lock);
      RunConcat(w, listing, done);
      assert |listing + done| <= 3;
    }
  }

  // A taken dino whose payload is on disk and which no run will ever list.
  ghost predicate Stranded(w: World, lock: string) {
    && w.pc.Idle? && lock in w.hist.taken && w.hist.taken[lock] !in w.alive && Secured(w, lock)
    && forall es :: Legal(w, es) && FreshLocks(w, es) ==> lock !in Run(w, es).hist.listed
  }

  /**
   That happens: a backend that does not hear of the sale within the ten minutes of its lock
   leaves a dino that is neither alive nor ever listed, from the first start and with a fresh lock.
   */
  lemma ExpiredLockStrandsADino(dinoOf: bytes -> nat, printOf: bytes -> string, alive: set<nat>, lock: string, p: bytes)
    requires p != [] && dinoOf(p) in alive
    ensures exists es :: Legal(FirstStart(dinoOf, printOf, alive), es) && FreshLocks(FirstStart(dinoOf, printOf, alive), es) &&
                         Stranded(Run(FirstStart(dinoOf, printOf, alive), es), lock)
  {
    var w := FirstStart(dinoOf, printOf, alive);
    var w1 := Apply(w, Start(true, true));
    var rest := SellAndExpire(w1, lock, p);
    Prepend(w, Start(true, true), rest);
    RunKeepsInv(w, [Start(true, true)] + rest);
    ExpiredIsStranded(Run(w1, rest), lock);
  }

  lemma SellAndExpire(w: World, lock: string, p: bytes) returns (es: seq<Event>)
    requires w.pc.Idle? && w.memory.Some? && w.memory == w.disk && Key(lock) !in w.memory.value && w.dinoOf(p) in w.alive
    requires lock !in w.hist.issued && p != [] && lock !in w.hist.listed
    ensures Legal(w, es) && FreshLocks(w, es)
    ensures var end := Run(w, es);
            end.pc.Idle? && end.memory.Some? && lock in end.hist.taken && lock in end.hist.expired && lock !in end.hist.listed
  {
    var sale, w1 := SellOnce(w, lock, p);
    var w2 := Apply(w1, LockExpires(lock));
    assert Legal(w2, []) && FreshLocks(w2, []) && Run(w2, []) == w2;
    Prepend(w1, LockExpires(lock), []);
    RunConcat(w, sale, [LockExpires(lock)] + []);
    es := sale + ([LockExpires(lock)] + []);
  }

  lemma ExpiredIsStranded(w: World, lock: string)
    requires Inv(w) && w.pc.Idle? && w.memory.Some?
    requires lock in w.hist.taken && lock in w.hist.expired && lock !in w.hist.listed
    ensures Stranded(w, lock)
  {
    TakenCanBeFinishedExactly(w, lock);
    forall es | Legal(w, es) && FreshLocks(w, es)
      ensures lock !in Run(w, es).hist.listed
    {
      assert !CanBeListed(w, lock);
    }
  }

  // ---------------------------------------------------------------- the cancel of a failed sale

  /**
   The cancel after a failed Begin or Mark names the key whether or not this sale owns it. It
   loses a taken dino exactly when the record under that lock is one whose dino is already
   taken, unfinished, and the write succeeds.
   */
  lemma CancelLosesExactly(w: World, persisted: bool)
    requires InSync(w) && TakenIsSecured(w) && w.pc.SellAbort? && w.memory.Some?
    ensures TakenIsSecured(Apply(w, CancelSale(persisted))) <==>
            !(w.pc.lock in w.hist.taken && Recorded(w, w.pc.lock, Mutating) && persisted)
  {
    var w' := Apply(w, CancelSale(persisted));
    var lock := w.pc.lock;
    if lock in w.hist.taken && Recorded(w, lock, Mutating) && persisted {
      assert Key(lock) !in w'.disk.value;
    } else if w'.disk != w.disk {
      assert forall l :: l in w.hist.taken ==> l != lock && Key(l) != Key(lock);
      assert forall l :: l in w.hist.taken ==> Secured(w', l) && RecordedDino(w', l) == RecordedDino(w, l);
    }
  }

  /**
   Fresh locks are needed: with a reused lock the second sale's cancel erases the first sale's
   record, and the first dino is neither alive nor on record.
   */
  lemma ReusedLockLosesADino(dinoOf: bytes -> nat, printOf: bytes -> string, p: bytes, q: bytes)
    requires p != [] && q != [] && dinoOf(p) != dinoOf(q)
    ensures exists es, lock ::
              Legal(FirstStart(dinoOf, printOf, {dinoOf(p), dinoOf(q)}), es) &&
              var w := Run(FirstStart(dinoOf, printOf, {dinoOf(p), dinoOf(q)}), es);
              lock in w.hist.taken && w.hist.taken[lock] !in w.alive && w.disk.Some? && Key(lock) !in w.disk.value
  {
    var w0 := FirstStart(dinoOf, printOf, {dinoOf(p), dinoOf(q)});
    var w1 := Apply(w0, Start(true, true));
    var sale, w2 := SellOnce(w1, "x", p);
    assert Recorded(w2, "x", Mutating) && w2.memory == w2.disk;
    var w3 := Apply(w2, LockGranted("x", q));
    assert w3.pc == SellBegin("x", q);
    var w4 := Apply(w3, Begin(true));
    assert w4.pc == SellAbort("x");
    var w5 := Apply(w4, CancelSale(true));
    assert Key("x") !in w5.disk.value;
    assert Legal(w5, []) && Run(w5, []) == w5;
    Prepend(w4, CancelSale(true), []);
    Prepend(w3, Begin(true), [CancelSale(true)] + []);
    Prepend(w2, LockGranted("x", q), [Begin(true)] + ([CancelSale(true)] + []));
    var tail := [LockGranted("x", q)] + ([Begin(true)] + ([CancelSale(true)] + []));
    RunConcat(w1, sale, tail);
    Prepend(w0, Start(true, true), sale + tail);
    var es := [Start(true, true)] + (sale + tail);
    assert Run(w0, es) == w5;
  }

  lemma Prepend(w: World, e: Event, es: seq<Event>)
    requires Enabled(w, e) && Legal(Apply(w, e), es)
    ensures Legal(w, [e] + es) && Run(w, [e] + es) == Run(Apply(w, e), es)
    ensures FreshLock(w, e) && FreshLocks(Apply(w, e), es) ==> FreshLocks(w, [e] + es)
  {
    assert ([e] + es)[1..] == es;
  }

  lemma {:induction false} RunConcat(w: World, es: seq<Event>, fs: seq<Event>)
    requires Legal(w, es) && Legal(Run(w, es), fs)
    ensures Legal(w, es + fs) && Run(w, es + fs) == Run(Run(w, es), fs)
    ensures FreshLocks(w, es) && FreshLocks(Run(w, es), fs) ==> FreshLocks(w, es + fs)
    decreases |es|
  {
    if es == [] {
      assert es + fs == fs;
    } else {
      RunConcat(Apply(w, es[0]), es[1..], fs);
      assert (es + fs)[0] == es[0] && (es + fs)[1..] == es[1..] + fs;
    }
  }

  lemma {:induction false} KindStays(w: World, es: seq<Event>)
    requires Legal(w, es)
    ensures Run(w, es).dinoOf == w.dinoOf && Run(w, es).printOf == w.printOf
    decreases |es|
  {
    if es != [] {
      KindStays(Apply(w, es[0]), es[1..]);
    }
  }

  // An undisturbed sale, up to the confirmation sent.
  lemma SellOnce(w: World, lock: string, p: bytes) returns (es: seq<Event>, end: World)
    requires w.pc.Idle? && w.memory.Some? && w.memory == w.disk && Key(lock) !in w.memory.value && w.dinoOf(p) in w.alive
    ensures Legal(w, es) && end == Run(w, es)
    ensures lock !in w.hist.issued && p != [] ==> FreshLocks(w, es)
    ensures es != [] && es[0] == LockGranted(lock, p) && forall i :: 0 < i < |es| ==> !es[i].LockGranted?
    ensures end.pc.Idle? && end.dinoOf == w.dinoOf && end.printOf == w.printOf && end.alive == w.alive - {w.dinoOf(p)}
    ensures end.memory == end.disk == Some(w.memory.value[Key(lock) := Fresh(LISTING, lock, p).(phase := Mutating)])
    ensures end.hist == w.hist.(issued := w.hist.issued + {lock}, taken := w.hist.taken[lock := w.dinoOf(p)],
                                dead := w.hist.dead + {w.dinoOf(p)}, confirmed := w.hist.confirmed[lock := w.printOf(p)])
  {
    var w1 := Apply(w, LockGranted(lock, p));
    var w2 := Apply(w1, Begin(true));
    assert w2.pc == SellMark(lock, p);
    var w3 := Apply(w2, Mark(true));
    assert w3.pc == SellDestroy(lock, p);
    assert w3.memory.value == w.memory.value[Key(lock) := Fresh(LISTING, lock, p).(phase := Mutating)];
    var w4 := Apply(w3, Destroy);
    end := Apply(w4, Confirm);
    assert Legal(end, []) && FreshLocks(end, []) && Run(end, []) == end;
    Prepend(w4, Confirm, []);
    Prepend(w3, Destroy, [Confirm] + []);
    Prepend(w2, Mark(true), [Destroy] + ([Confirm] + []));
    Prepend(w1, Begin(true), [Mark(true)] + ([Destroy] + ([Confirm] + [])));
    es := [LockGranted(lock, p)] + ([Begin(true)] + ([Mark(true)] + ([Destroy] + ([Confirm] + []))));
    Prepend(w, LockGranted(lock, p), [Begin(true)] + ([Mark(true)] + ([Destroy] + ([Confirm] + []))));
  }

  // ---------------------------------------------------------------- one listing for each dino

  // The dino is not granted a sale while it lives and a mutating record names it.
  ghost predicate NotResold(w: World, e: Event, dino: nat) {
    e.LockGranted? && w.dinoOf(e.payload) == dino && dino in w.alive ==>
      forall lock :: Recorded(w, lock, Mutating) ==> RecordedDino(w, lock) != dino
  }

  ghost predicate NeverResold(w: World, es: seq<Event>, dino: nat)
    requires Legal(w, es)
    decreases |es|
  {
    es == [] || (NotResold(w, es[0], dino) && NeverResold(Apply(w, es[0]), es[1..], dino))
  }

  ghost predicate Names(w: World, lock: string, dino: nat) {
    Secured(w, lock) && RecordedDino(w, lock) == dino
  }

  // One mutating or completed record at most names the dino, and none while it is being sold.
  ghost predicate NamedOnce(w: World, dino: nat) {
    && (forall l1, l2 :: Names(w, l1, dino) && Names(w, l2, dino) ==> l1 == l2)
    && ((w.pc.SellBegin? || w.pc.SellMark?) && w.dinoOf(w.pc.payload) == dino ==> forall lock :: !Names(w, lock, dino))
  }

  // A completed record was listed, so its dino is gone: only a mutating one can name a live dino.
  lemma LiveDinoIsMutating(w: World, lock: string, dino: nat)
    requires Inv(w) && Names(w, lock, dino) && dino in w.alive
    ensures Recorded(w, lock, Mutating)
  {
  }

  // A step that brings no new name.
  lemma NoNewName(w: World, w': World, dino: nat)
    requires NamedOnce(w, dino)
    requires forall lock :: Names(w', lock, dino) ==> Names(w, lock, dino)
    requires w'.pc.SellBegin? || w'.pc.SellMark? ==>
               (w.pc.SellBegin? || w.pc.SellMark?) && w'.dinoOf(w'.pc.payload) == w.dinoOf(w.pc.payload)
    ensures NamedOnce(w', dino)
  {
  }

  lemma GrantKeepsNamedOnce(w: World, e: Event, dino: nat)
    requires Inv(w) && NamedOnce(w, dino) && Enabled(w, e) && e.LockGranted? && NotResold(w, e, dino)
    ensures NamedOnce(Apply(w, e), dino)
  {
    var w' := Apply(w, e);
    assert forall lock :: Names(w', lock, dino) <==> Names(w, lock, dino);
    if w'.pc.SellBegin? && w.dinoOf(e.payload) == dino {
      forall lock
        ensures !Names(w', lock, dino)
      {
        if Names(w, lock, dino) {
          LiveDinoIsMutating(w, lock, dino);
        }
      }
    }
  }

  lemma MarkKeepsNamedOnce(w: World, persisted: bool, dino: nat)
    requires Inv(w) && NamedOnce(w, dino) && w.pc.SellMark?
    ensures NamedOnce(ApplyMark(w, persisted), dino)
  {
    var w' := ApplyMark(w, persisted);
    assert forall lock :: lock != w.pc.lock ==> Key(lock) != Key(w.pc.lock);
    assert forall lock :: lock != w.pc.lock ==> (Names(w', lock, dino) <==> Names(w, lock, dino));
    assert Names(w', w.pc.lock, dino) ==> w.dinoOf(w.pc.payload) == dino;
  }

  lemma OtherKeepsNamedOnce(w: World, d: Deliveries, dino: nat)
    requires Inv(w) && NamedOnce(w, dino) && Enabled(w, OtherProtocol(d))
    ensures NamedOnce(Apply(w, OtherProtocol(d)), dino)
  {
    var w' := Apply(w, OtherProtocol(d));
    forall lock | Names(w', lock, dino)
      ensures Names(w, lock, dino)
    {
      assert Keeps(w.disk.value, w'.disk.value, Key(lock));
    }
    NoNewName(w, w', dino);
  }

  lemma JournalStepKeepsNamedOnce(w: World, e: Event, dino: nat)
    requires Inv(w) && NamedOnce(w, dino) && Enabled(w, e)
    requires e.Begin? || e.CancelSale? || e.Confirmed? || e.Recover?
    ensures NamedOnce(Apply(w, e), dino)
  {
    var w' := Apply(w, e);
    forall lock | Names(w', lock, dino)
      ensures Names(w, lock, dino)
    {
    }
    NoNewName(w, w', dino);
  }

  lemma StepKeepsNamedOnce(w: World, e: Event, dino: nat)
    requires Inv(w) && NamedOnce(w, dino) && Enabled(w, e) && NotResold(w, e, dino)
    ensures NamedOnce(Apply(w, e), dino)
  {
    match e
    case LockGranted(_, _) => GrantKeepsNamedOnce(w, e, dino);
    case Mark(persisted) => MarkKeepsNamedOnce(w, persisted, dino);
    case OtherProtocol(d) => OtherKeepsNamedOnce(w, d, dino);
    case Begin(_) => JournalStepKeepsNamedOnce(w, e, dino);
    case CancelSale(_) => JournalStepKeepsNamedOnce(w, e, dino);
    case Confirmed(_, _) => JournalStepKeepsNamedOnce(w, e, dino);
    case Recover(_, _) => JournalStepKeepsNamedOnce(w, e, dino);
    case _ =>
      assert Apply(w, e).disk == w.disk || w.disk.None?;
      NoNewName(w, Apply(w, e), dino);
  }

  lemma {:induction false} RunKeepsNamedOnce(w: World, es: seq<Event>, dino: nat)
    requires Inv(w) && NamedOnce(w, dino) && Legal(w, es) && FreshLocks(w, es) && NeverResold(w, es, dino)
    ensures Inv(Run(w, es)) && NamedOnce(Run(w, es), dino)
    decreases |es|
  {
    if es != [] {
      StepKeepsInv(w, es[0]);
      StepKeepsNamedOnce(w, es[0], dino);
      RunKeepsNamedOnce(Apply(w, es[0]), es[1..], dino);
    }
  }

  // Two listings name the dino.
  ghost predicate ListedTwice(w: World, dino: nat) {
    exists l1, l2 :: l1 != l2 && l1 in w.hist.listed && l2 in w.hist.listed && Names(w, l1, dino) && Names(w, l2, dino)
  }

  /**
   One listing for each dino, as long as that dino is not sold again while it lives and a
   mutating record names it. Selling one that is gone, a record that is only prepared, and any
   death do no harm.
   */
  lemma OneListingPerDino(dinoOf: bytes -> nat, printOf: bytes -> string, alive: set<nat>, es: seq<Event>, dino: nat)
    requires Legal(FirstStart(dinoOf, printOf, alive), es) && FreshLocks(FirstStart(dinoOf, printOf, alive), es)
    requires NeverResold(FirstStart(dinoOf, printOf, alive), es, dino)
    ensures !ListedTwice(Run(FirstStart(dinoOf, printOf, alive), es), dino)
  {
    RunKeepsNamedOnce(FirstStart(dinoOf, printOf, alive), es, dino);
  }

  // A run that starts with a sale of the live dino and sells it no second time in the same way.
  ghost predicate SaleRun(w: World, lock: string, p: bytes, es: seq<Event>) {
    && Legal(w, es) && FreshLocks(w, es)
    && es != [] && es[0] == LockGranted(lock, p)
    && NeverResold(Apply(w, es[0]), es[1..], w.dinoOf(p))
  }

  // A mutating record of the dino that the backend would still list.
  ghost predicate Contends(w: World, lock: string, dino: nat) {
    Recorded(w, lock, Mutating) && RecordedDino(w, lock) == dino && Open(w, lock)
  }

  // Two of them with different fingerprints, one of which may be the new sale's.
  ghost predicate TwoContend(w: World, p: bytes) {
    exists l1 :: Contends(w, l1, w.dinoOf(p)) &&
                 ((Unused(w, w.printOf(p)) && w.printOf(p) != RecordedPrint(w, l1)) ||
                  exists l2 :: Contends(w, l2, w.dinoOf(p)) && RecordedPrint(w, l2) != RecordedPrint(w, l1))
  }

  /**
   An idle plugin that sells a live dino can end up with two listings of it exactly when a
   mutating record already names it whose lock has not expired, and its fingerprint, that of
   the new sale (or of one more such record) and those of all listings differ: then the next
   poll finds the dino gone and confirms that record's lock too, although every lock is fresh.
   */
  lemma ResaleListsTwiceExactly(w: World, lock: string, p: bytes)
    requires Inv(w) && w.pc.Idle? && w.memory.Some?
    requires ListedApart(w) && lock !in w.hist.issued && p != [] && w.dinoOf(p) in w.alive
    ensures (exists es :: SaleRun(w, lock, p, es) && ListedTwice(Run(w, es), w.dinoOf(p))) <==> TwoContend(w, p)
  {
    if TwoContend(w, p) {
      var l1 :| Contends(w, l1, w.dinoOf(p)) &&
                ((Unused(w, w.printOf(p)) && w.printOf(p) != RecordedPrint(w, l1)) ||
                 exists l2 :: Contends(w, l2, w.dinoOf(p)) && RecordedPrint(w, l2) != RecordedPrint(w, l1));
      if Unused(w, w.printOf(p)) && w.printOf(p) != RecordedPrint(w, l1) {
        ResoldDinoIsListedTwice(w, lock, p, l1, lock);
      } else {
        var l2 :| Contends(w, l2, w.dinoOf(p)) && RecordedPrint(w, l2) != RecordedPrint(w, l1);
        ResoldDinoIsListedTwice(w, lock, p, l1, l2);
      }
    } else {
      forall es | SaleRun(w, lock, p, es)
        ensures !ListedTwice(Run(w, es), w.dinoOf(p))
      {
        SaleRunIsTraced(w, lock, p, es);
        RunKeepsApart(w, es);
        TracedTwice(w, Run(w, es), lock, p);
      }
    }
  }

  // Listable once the sale under `lock` has destroyed the dino.
  ghost predicate ListableAfterSale(w: World, lock: string, p: bytes, l: string) {
    if l == lock then Unused(w, w.printOf(p)) else Contends(w, l, w.dinoOf(p))
  }

  function PrintAfterSale(w: World, lock: string, p: bytes, l: string): string
    requires l == lock || (w.disk.Some? && Key(l) in w.disk.value)
  {
    if l == lock then w.printOf(p) else RecordedPrint(w, l)
  }

  // The sale, the recovery of the two records, and both listings.
  lemma ResoldDinoIsListedTwice(w: World, lock: string, p: bytes, l1: string, l2: string)
    requires Inv(w) && w.pc.Idle? && w.memory.Some?
    requires ListedApart(w) && lock !in w.hist.issued && p != [] && w.dinoOf(p) in w.alive
    requires ListableAfterSale(w, lock, p, l1) && ListableAfterSale(w, lock, p, l2)
    requires PrintAfterSale(w, lock, p, l1) != PrintAfterSale(w, lock, p, l2)
    ensures exists es :: SaleRun(w, lock, p, es) && ListedTwice(Run(w, es), w.dinoOf(p))
  {
    var sale, w1 := SellOnce(w, lock, p);
    RunKeepsInv(w, sale);
    AfterSale(w, w1, lock, p, l1);
    AfterSale(w, w1, lock, p, l2);
    var more := ListTwo(w1, l1, l2, w.dinoOf(p));
    RunConcat(w, sale, more);
    OneGrant(w, lock, p, sale, more);
    assert SaleRun(w, lock, p, sale + more) && ListedTwice(Run(w, sale + more), w.dinoOf(p));
  }

  lemma OneGrant(w: World, lock: string, p: bytes, sale: seq<Event>, more: seq<Event>)
    requires Legal(w, sale + more) && FreshLocks(w, sale + more)
    requires sale != [] && sale[0] == LockGranted(lock, p) && forall i :: 0 < i < |sale| ==> !sale[i].LockGranted?
    requires forall i :: 0 <= i < |more| ==> !more[i].LockGranted?
    ensures SaleRun(w, lock, p, sale + more)
  {
    var es := sale + more;
    assert es[0] == sale[0] && es[1..] == sale[1..] + more;
    NoGrantNoResale(Apply(w, es[0]), es[1..], w.dinoOf(p));
  }

  lemma AfterSale(w: World, w1: World, lock: string, p: bytes, l: string)
    requires Inv(w) && ListedApart(w) && w.memory.Some? && w.dinoOf(p) in w.alive && lock !in w.hist.issued
    requires ListableAfterSale(w, lock, p, l)
    requires w1.disk == Some(w.memory.value[Key(lock) := Fresh(LISTING, lock, p).(phase := Mutating)])
    requires w1.dinoOf == w.dinoOf && w1.printOf == w.printOf && w1.hist.listed == w.hist.listed && w1.hist.expired == w.hist.expired
    ensures Contends(w1, l, w.dinoOf(p)) && RecordedPrint(w1, l) == PrintAfterSale(w, lock, p, l) && l !in w1.hist.listed
  {
    assert l != lock ==> Key(l) != Key(lock);
  }

  lemma ListTwo(w: World, l1: string, l2: string, dino: nat) returns (es: seq<Event>)
    requires Inv(w) && w.pc.Idle? && w.memory.Some? && dino !in w.alive
    requires Contends(w, l1, dino) && Contends(w, l2, dino) && RecordedPrint(w, l1) != RecordedPrint(w, l2)
    requires l1 !in w.hist.listed && l2 !in w.hist.listed
    ensures Legal(w, es) && FreshLocks(w, es) && ListedTwice(Run(w, es), dino)
    ensures forall i :: 0 <= i < |es| ==> !es[i].LockGranted?
  {
    var first := ListOne(w, l1);
    RunKeepsInv(w, first);
    var second := ListSecond(w, Run(w, first), l1, l2, dino);
    RunConcat(w, first, second);
    es := first + second;
  }

  lemma ListSecond(w: World, w1: World, l1: string, l2: string, dino: nat) returns (es: seq<Event>)
    requires Inv(w1) && w.pc.Idle? && w.memory.Some? && dino !in w.alive
    requires Contends(w, l1, dino) && Contends(w, l2, dino) && RecordedPrint(w, l1) != RecordedPrint(w, l2)
    requires l1 !in w.hist.listed && l2 !in w.hist.listed
    requires w1 == w.(hist := w.hist.(confirmed := w.hist.confirmed[l1 := RecordedPrint(w, l1)],
                                      listed := w.hist.listed[l1 := RecordedPrint(w, l1)]))
    ensures Legal(w1, es) && FreshLocks(w1, es) && ListedTwice(Run(w1, es), dino)
    ensures forall i :: 0 <= i < |es| ==> !es[i].LockGranted?
  {
    assert Contends(w1, l2, dino);
    es := ListOne(w1, l2);
    var end := Run(w1, es);
    assert Names(end, l1, dino) && Names(end, l2, dino) && l1 != l2;
  }

  lemma {:induction false} NoGrantNoResale(w: World, es: seq<Event>, dino: nat)
    requires Legal(w, es) && forall i :: 0 <= i < |es| ==> !es[i].LockGranted?
    ensures NeverResold(w, es, dino)
    decreases |es|
  {
    if es != [] {
      assert forall i :: 0 <= i < |es[1..]| ==> es[1..][i] == es[i + 1];
      NoGrantNoResale(Apply(w, es[0]), es[1..], dino);
    }
  }

  // The other direction: where the names in a run from `w0` come from, while it sells `p` under `lock`.
  ghost predicate Traced(w0: World, w: World, lock: string, p: bytes) {
    && w.dinoOf == w0.dinoOf && w.printOf == w0.printOf
    && (forall l :: Names(w, l, w0.dinoOf(p)) ==> ComesFrom(w0, w, lock, p, l))
    && ((w.pc.SellBegin? || w.pc.SellMark?) && w.dinoOf(w.pc.payload) == w0.dinoOf(p) ==> w.pc.lock == lock && w.pc.payload == p)
  }

  ghost predicate ComesFrom(w0: World, w: World, lock: string, p: bytes, l: string)
    requires w.disk.Some? && Key(l) in w.disk.value
  {
    if l == lock then RecordedPrint(w, l) == w0.printOf(p)
    else Names(w0, l, w0.dinoOf(p)) && RecordedPrint(w, l) == RecordedPrint(w0, l)
  }

  // What was listed since was open then.
  ghost predicate ListedSince(w0: World, w: World) {
    && w0.hist.expired <= w.hist.expired
    && (forall l :: l in w0.hist.listed ==> l in w.hist.listed && w.hist.listed[l] == w0.hist.listed[l])
    && (forall l :: l in w.hist.listed && l !in w0.hist.listed ==> l !in w0.hist.expired && Unused(w0, w.hist.listed[l]))
  }

  lemma StepListsSince(w0: World, w: World, e: Event)
    requires ListedSince(w0, w) && Enabled(w, e)
    ensures ListedSince(w0, Apply(w, e))
  {
    if e.BackendLists? && e.lock !in w.hist.listed {
      var fingerprint := w.hist.confirmed[e.lock];
      forall l | l in w0.hist.listed
        ensures w0.hist.listed[l] != fingerprint
      {
        assert l in w.hist.listed && w.hist.listed[l] == w0.hist.listed[l];
      }
    }
  }

  lemma MarkKeepsTrace(w0: World, w: World, persisted: bool, lock: string, p: bytes)
    requires Inv(w) && Traced(w0, w, lock, p) && w.pc.SellMark?
    ensures Traced(w0, ApplyMark(w, persisted), lock, p)
  {
    var w' := ApplyMark(w, persisted);
    forall l | Names(w', l, w0.dinoOf(p))
      ensures ComesFrom(w0, w', lock, p, l)
    {
      if l != w.pc.lock {
        assert Key(l) != Key(w.pc.lock);
        assert Names(w, l, w0.dinoOf(p));
      }
    }
  }

  lemma JournalStepKeepsTrace(w0: World, w: World, e: Event, lock: string, p: bytes)
    requires Inv(w) && Traced(w0, w, lock, p) && Enabled(w, e)
    requires e.Begin? || e.CancelSale? || e.Confirmed? || e.Recover? || e.OtherProtocol?
    ensures Traced(w0, Apply(w, e), lock, p)
  {
    var w' := Apply(w, e);
    forall l | Names(w', l, w0.dinoOf(p))
      ensures ComesFrom(w0, w', lock, p, l)
    {
      if e.OtherProtocol? {
        assert Keeps(w.disk.value, w'.disk.value, Key(l));
      }
      assert Names(w, l, w0.dinoOf(p)) && RecordedPrint(w', l) == RecordedPrint(w, l);
    }
  }

  // A second sale of the dino while it lives finds no mutating record, and starts from none.
  lemma GrantEndsTrace(w0: World, w: World, e: Event, lock: string, p: bytes)
    requires Inv(w) && Traced(w0, w, lock, p) && Enabled(w, e) && e.LockGranted? && NotResold(w, e, w0.dinoOf(p))
    ensures Traced(w0, Apply(w, e), lock, p) || NamedOnce(Apply(w, e), w0.dinoOf(p))
  {
    var dino := w0.dinoOf(p);
    assert forall l :: Names(Apply(w, e), l, dino) <==> Names(w, l, dino);
    if w.dinoOf(e.payload) == dino && dino in w.alive {
      forall l
        ensures !Names(w, l, dino)
      {
        if Names(w, l, dino) {
          LiveDinoIsMutating(w, l, dino);
        }
      }
      GrantKeepsNamedOnce(w, e, dino);
    }
  }

  lemma StepKeepsTrace(w0: World, w: World, e: Event, lock: string, p: bytes)
    requires Inv(w) && Traced(w0, w, lock, p) && Enabled(w, e) && NotResold(w, e, w0.dinoOf(p))
    ensures Traced(w0, Apply(w, e), lock, p) || NamedOnce(Apply(w, e), w0.dinoOf(p))
  {
    match e
    case LockGranted(_, _) => GrantEndsTrace(w0, w, e, lock, p);
    case Mark(persisted) => MarkKeepsTrace(w0, w, persisted, lock, p);
    case Begin(_) => JournalStepKeepsTrace(w0, w, e, lock, p);
    case CancelSale(_) => JournalStepKeepsTrace(w0, w, e, lock, p);
    case Confirmed(_, _) => JournalStepKeepsTrace(w0, w, e, lock, p);
    case Recover(_, _) => JournalStepKeepsTrace(w0, w, e, lock, p);
    case OtherProtocol(_) => JournalStepKeepsTrace(w0, w, e, lock, p);
    case _ => QuietStepKeepsTrace(w0, w, e, lock, p);
  }

  lemma QuietStepKeepsTrace(w0: World, w: World, e: Event, lock: string, p: bytes)
    requires Traced(w0, w, lock, p) && Enabled(w, e) && Apply(w, e).dinoOf == w.dinoOf && Apply(w, e).printOf == w.printOf
    requires Apply(w, e).disk == w.disk || (w.disk.None? && Apply(w, e).disk == Some(map[]))
    requires Apply(w, e).pc == w.pc || !(Apply(w, e).pc.SellBegin? || Apply(w, e).pc.SellMark?)
    ensures Traced(w0, Apply(w, e), lock, p)
  {
    var w' := Apply(w, e);
    forall l | Names(w', l, w0.dinoOf(p))
      ensures ComesFrom(w0, w', lock, p, l)
    {
      assert Names(w, l, w0.dinoOf(p));
    }
  }

  lemma {:induction false} RunKeepsTrace(w0: World, w: World, es: seq<Event>, lock: string, p: bytes)
    requires Inv(w) && (Traced(w0, w, lock, p) || NamedOnce(w, w0.dinoOf(p))) && ListedSince(w0, w)
    requires Legal(w, es) && FreshLocks(w, es) && NeverResold(w, es, w0.dinoOf(p))
    ensures Inv(Run(w, es)) && ListedSince(w0, Run(w, es))
    ensures Traced(w0, Run(w, es), lock, p) || NamedOnce(Run(w, es), w0.dinoOf(p))
    decreases |es|
  {
    if es != [] {
      StepKeepsInv(w, es[0]);
      StepListsSince(w0, w, es[0]);
      if Traced(w0, w, lock, p) {
        StepKeepsTrace(w0, w, es[0], lock, p);
      } else {
        StepKeepsNamedOnce(w, es[0], w0.dinoOf(p));
      }
      RunKeepsTrace(w0, Apply(w, es[0]), es[1..], lock, p);
    }
  }

  lemma SaleRunIsTraced(w: World, lock: string, p: bytes, es: seq<Event>)
    requires Inv(w) && w.pc.Idle? && w.memory.Some? && lock !in w.hist.issued && w.dinoOf(p) in w.alive
    requires SaleRun(w, lock, p, es)
    ensures Inv(Run(w, es)) && ListedSince(w, Run(w, es))
    ensures Traced(w, Run(w, es), lock, p) || NamedOnce(Run(w, es), w.dinoOf(p))
  {
    var w1 := Apply(w, es[0]);
    StepKeepsInv(w, es[0]);
    forall l | Names(w1, l, w.dinoOf(p))
      ensures ComesFrom(w, w1, lock, p, l)
    {
      assert Names(w, l, w.dinoOf(p)) && l in w.hist.issued;
    }
    RunKeepsTrace(w, w1, es[1..], lock, p);
  }

  // Two listings at the end were two contenders at the start.
  lemma TracedTwice(w0: World, w: World, lock: string, p: bytes)
    requires Inv(w0) && lock !in w0.hist.issued && w0.dinoOf(p) in w0.alive
    requires Inv(w) && ListedApart(w) && ListedSince(w0, w) && (Traced(w0, w, lock, p) || NamedOnce(w, w0.dinoOf(p)))
    ensures ListedTwice(w, w0.dinoOf(p)) ==> TwoContend(w0, p)
  {
    var dino := w0.dinoOf(p);
    if l1, l2 :| l1 != l2 && l1 in w.hist.listed && l2 in w.hist.listed && Names(w, l1, dino) && Names(w, l2, dino) {
      ListedContended(w0, w, lock, p, l1);
      ListedContended(w0, w, lock, p, l2);
      assert w.hist.listed[l1] != w.hist.listed[l2];
      if l1 == lock {
        assert Contends(w0, l2, dino);
      } else {
        assert Contends(w0, l1, dino);
      }
    }
  }

  lemma ListedContended(w0: World, w: World, lock: string, p: bytes, l: string)
    requires Inv(w0) && lock !in w0.hist.issued && w0.dinoOf(p) in w0.alive
    requires Inv(w) && ListedApart(w) && ListedSince(w0, w) && Traced(w0, w, lock, p)
    requires l in w.hist.listed && Names(w, l, w0.dinoOf(p))
    ensures ListableAfterSale(w0, lock, p, l) && PrintAfterSale(w0, lock, p, l) == w.hist.listed[l]
  {
    assert w.hist.listed[l] == RecordedPrint(w, l);
    if l == lock {
      assert l !in w0.hist.listed;
    } else {
      LiveDinoIsMutating(w0, l, w0.dinoOf(p));
      assert l !in w0.hist.listed;
    }
  }

  /** Such a live dino on record is reachable, by one crash at the wrong moment. */
  lemma CrashLeavesALiveDinoOnRecord(dinoOf: bytes -> nat, printOf: bytes -> string, alive: set<nat>, lock: string, p: bytes)
    requires p != [] && dinoOf(p) in alive
    ensures exists es :: Legal(FirstStart(dinoOf, printOf, alive), es) && FreshLocks(FirstStart(dinoOf, printOf, alive), es) &&
                         LiveOnRecord(Run(FirstStart(dinoOf, printOf, alive), es), lock, p)
  {
    var w := FirstStart(dinoOf, printOf, alive);
    var w1 := Apply(w, Start(true, true));
    var w2 := Apply(w1, LockGranted(lock, p));
    var rest := CrashAfterMark(w2, lock, p);
    Prepend(w1, LockGranted(lock, p), rest);
    Prepend(w, Start(true, true), [LockGranted(lock, p)] + rest);
  }

  // Idle, with a mutating record of a sale that never took its dino.
  ghost predicate LiveOnRecord(w: World, lock: string, p: bytes) {
    && w.pc.Idle? && w.memory.Some? && Recorded(w, lock, Mutating) && lock !in w.hist.taken
    && w.disk.value[Key(lock)].payload == p && w.dinoOf(p) in w.alive
    && w.hist.issued == {lock} && w.hist.expired == {} && w.hist.listed == map[]
  }

  lemma CrashAfterMark(w: World, lock: string, p: bytes) returns (es: seq<Event>)
    requires w.pc == SellBegin(lock, p) && w.memory == w.disk == Some(map[])
    requires w.hist.issued == {lock} && w.hist.expired == {} && w.hist.listed == map[]
    requires lock !in w.hist.taken && w.dinoOf(p) in w.alive
    ensures Legal(w, es) && FreshLocks(w, es) && LiveOnRecord(Run(w, es), lock, p)
  {
    var w1 := Apply(w, Begin(true));
    assert w1.pc == SellMark(lock, p);
    var w2 := Apply(w1, Mark(true));
    var w3 := Apply(w2, Crash);
    var w4 := Apply(w3, Start(true, true));
    assert Legal(w4, []) && FreshLocks(w4, []) && Run(w4, []) == w4;
    Prepend(w3, Start(true, true), []);
    Prepend(w2, Crash, [Start(true, true)] + []);
    Prepend(w1, Mark(true), [Crash] + ([Start(true, true)] + []));
    es := [Begin(true)] + ([Mark(true)] + ([Crash] + ([Start(true, true)] + [])));
    Prepend(w, Begin(true), [Mark(true)] + ([Crash] + ([Start(true, true)] + [])));
  }

  /** So one crash and one re-sale, at another price say, list a dino twice from the first start. */
  lemma TwoListingsFromTheStart(dinoOf: bytes -> nat, printOf: bytes -> string, alive: set<nat>,
                                l1: string, p: bytes, l2: string, q: bytes)
    requires p != [] && q != [] && l1 != l2 && dinoOf(p) == dinoOf(q) && dinoOf(p) in alive && printOf(p) != printOf(q)
    ensures exists es :: Legal(FirstStart(dinoOf, printOf, alive), es) && FreshLocks(FirstStart(dinoOf, printOf, alive), es) &&
                         ListedTwice(Run(FirstStart(dinoOf, printOf, alive), es), dinoOf(p))
  {
    var w := FirstStart(dinoOf, printOf, alive);
    CrashLeavesALiveDinoOnRecord(dinoOf, printOf, alive, l1, p);
    var start :| Legal(w, start) && FreshLocks(w, start) && LiveOnRecord(Run(w, start), l1, p);
    var w1 := Run(w, start);
    RunKeepsInv(w, start);
    KindStays(w, start);
    assert ListableAfterSale(w1, l2, q, l1) && ListableAfterSale(w1, l2, q, l2);
    ResoldDinoIsListedTwice(w1, l2, q, l1, l2);
    var sale :| SaleRun(w1, l2, q, sale) && ListedTwice(Run(w1, sale), dinoOf(p));
    RunConcat(w, start, sale);
  }

  // ---------------------------------------------------------------- listed means taken

  // The lock's sale was granted and did not take the dino, and nothing can confirm it any more.
  ghost predicate Spent(w: World, lock: string) {
    && lock in w.hist.issued && lock !in w.hist.taken && lock !in w.hist.confirmed && !Recorded(w, lock, Mutating)
    && (w.pc.SellBegin? || w.pc.SellMark? || w.pc.SellDestroy? || w.pc.SellConfirm? ==> w.pc.lock != lock)
  }

  lemma StepKeepsSpent(w: World, e: Event, lock: string)
    requires Inv(w) && Spent(w, lock) && Enabled(w, e) && FreshLock(w, e)
    ensures Spent(Apply(w, e), lock)
  {
    var w' := Apply(w, e);
    if e.OtherProtocol? {
      assert Keeps(w.disk.value, w'.disk.value, Key(lock));
    }
    assert w.pc.SellBegin? || w.pc.SellMark? ==> Key(w.pc.lock) != Key(lock);
  }

  lemma {:induction false} RunKeepsSpent(w: World, es: seq<Event>, lock: string)
    requires Inv(w) && Spent(w, lock) && Legal(w, es) && FreshLocks(w, es)
    ensures Inv(Run(w, es)) && Spent(Run(w, es), lock)
    decreases |es|
  {
    if es != [] {
      StepKeepsInv(w, es[0]);
      StepKeepsSpent(w, es[0], lock);
      RunKeepsSpent(Apply(w, es[0]), es[1..], lock);
    }
  }

  ghost predicate ListedUntaken(w: World, es: seq<Event>, lock: string) {
    Legal(w, es) && FreshLocks(w, es) && lock in Run(w, es).hist.listed && lock !in Run(w, es).hist.taken
  }

  /**
   A granted lock whose sale did not take its dino is or can still be listed exactly when it is
   listed already, or its record is mutating and the backend would still list it: a mutating
   record is confirmed by recovery once its dino is gone for any reason, be it a death.
   */
  lemma ListedUntakenExactly(w: World, lock: string)
    requires Inv(w) && w.pc.Idle? && w.memory.Some? && lock in w.hist.issued && lock !in w.hist.taken
    ensures (exists es :: ListedUntaken(w, es, lock)) <==>
            lock in w.hist.listed || (Recorded(w, lock, Mutating) && Open(w, lock))
  {
    if lock in w.hist.listed {
      assert Legal(w, []) && FreshLocks(w, []) && Run(w, []) == w;
      assert ListedUntaken(w, [], lock);
    } else if Recorded(w, lock, Mutating) && Open(w, lock) {
      var es := ListMutating(w, lock);
    } else {
      forall es | Legal(w, es) && FreshLocks(w, es)
        ensures !ListedUntaken(w, es, lock)
      {
        if Recorded(w, lock, Mutating) {
          RunKeepsShut(w, es, lock, RecordedPrint(w, lock));
        } else {
          RunKeepsSpent(w, es, lock);
        }
      }
    }
  }

  lemma ListMutating(w: World, lock: string) returns (es: seq<Event>)
    requires Inv(w) && w.pc.Idle? && w.memory.Some? && Recorded(w, lock, Mutating) && lock !in w.hist.taken
    requires lock !in w.hist.listed && Open(w, lock)
    ensures ListedUntaken(w, es, lock)
  {
    var dino := RecordedDino(w, lock);
    if dino in w.alive {
      DeathKeepsInv(w, dino);
      var rest := ListOne(Apply(w, DinoDies(dino)), lock);
      Prepend(w, DinoDies(dino), rest);
      es := [DinoDies(dino)] + rest;
    } else {
      es := ListOne(w, lock);
    }
  }

  // No dino on a mutating record is sold again while it lives, or dies.
  ghost predicate Careful(w: World, e: Event) {
    match e
    case LockGranted(_, payload) => NotResold(w, e, w.dinoOf(payload))
    case DinoDies(dino) => forall lock :: Recorded(w, lock, Mutating) ==> RecordedDino(w, lock) != dino
    case _ => true
  }

  ghost predicate AllCareful(w: World, es: seq<Event>)
    requires Legal(w, es)
    decreases |es|
  {
    es == [] || (Careful(w, es[0]) && AllCareful(Apply(w, es[0]), es[1..]))
  }

  // A mutating record whose sale did not take its dino.
  predicate Untaken(w: World, lock: string) {
    Recorded(w, lock, Mutating) && lock !in w.hist.taken
  }

  // Such a record names a live dino, and not the one being sold.
  ghost predicate NothingStale(w: World) {
    && (forall lock :: Untaken(w, lock) ==> RecordedDino(w, lock) in w.alive)
    && w.hist.confirmed.Keys <= w.hist.taken.Keys
    && (w.pc.SellBegin? || w.pc.SellMark? || w.pc.SellDestroy? ==>
          forall lock :: Untaken(w, lock) && lock != w.pc.lock ==> RecordedDino(w, lock) != w.dinoOf(w.pc.payload))
  }

  // A step that changes no name, no life and no sale.
  lemma NothingNewStale(w: World, w': World)
    requires NothingStale(w) && w'.dinoOf == w.dinoOf && w.alive <= w'.alive && w'.hist.taken == w.hist.taken
    requires w'.hist.confirmed.Keys <= w'.hist.taken.Keys
    requires forall lock :: Untaken(w', lock) ==> Untaken(w, lock) && RecordedDino(w', lock) == RecordedDino(w, lock)
    requires w'.pc.SellBegin? || w'.pc.SellMark? || w'.pc.SellDestroy? ==> w'.pc == w.pc
    ensures NothingStale(w')
  {
  }

  lemma BeginKeepsStale(w: World, persisted: bool)
    requires Inv(w) && NothingStale(w) && w.pc.SellBegin?
    ensures NothingStale(ApplyBegin(w, persisted))
  {
    var w' := ApplyBegin(w, persisted);
    assert forall lock :: lock != w.pc.lock ==> Key(lock) != Key(w.pc.lock);
    assert forall lock :: Untaken(w', lock) ==> Untaken(w, lock) && RecordedDino(w', lock) == RecordedDino(w, lock);
  }

  lemma MarkKeepsStale(w: World, persisted: bool)
    requires Inv(w) && NothingStale(w) && w.pc.SellMark?
    ensures NothingStale(ApplyMark(w, persisted))
  {
    var w' := ApplyMark(w, persisted);
    assert forall lock :: lock != w.pc.lock ==> Key(lock) != Key(w.pc.lock);
    assert forall lock :: lock != w.pc.lock && Untaken(w', lock) ==> Untaken(w, lock) && RecordedDino(w', lock) == RecordedDino(w, lock);
  }

  lemma SettleKeepsStale(w: World, e: Event)
    requires Inv(w) && NothingStale(w) && Enabled(w, e) && (e.CancelSale? || e.Confirmed? || e.Recover?)
    ensures NothingStale(Apply(w, e))
  {
    var w' := Apply(w, e);
    forall lock | Untaken(w', lock)
      ensures Untaken(w, lock) && RecordedDino(w', lock) == RecordedDino(w, lock)
    {
      SettledWasUntaken(w, e, lock);
    }
    NothingNewStale(w, w');
  }

  lemma SettledWasUntaken(w: World, e: Event, lock: string)
    requires InSync(w) && Enabled(w, e) && (e.CancelSale? || e.Confirmed? || e.Recover?)
    requires Untaken(Apply(w, e), lock)
    ensures Untaken(w, lock) && RecordedDino(Apply(w, e), lock) == RecordedDino(w, lock)
  {
  }

  lemma OtherKeepsStale(w: World, d: Deliveries)
    requires Inv(w) && NothingStale(w) && Enabled(w, OtherProtocol(d))
    ensures NothingStale(Apply(w, OtherProtocol(d)))
  {
    var w' := Apply(w, OtherProtocol(d));
    forall lock | Untaken(w', lock)
      ensures Untaken(w, lock) && RecordedDino(w', lock) == RecordedDino(w, lock)
    {
      assert Keeps(w.disk.value, w'.disk.value, Key(lock));
    }
    NothingNewStale(w, w');
  }

  lemma GrantKeepsStale(w: World, lock: string, payload: bytes)
    requires Inv(w) && NothingStale(w) && Enabled(w, LockGranted(lock, payload)) && Careful(w, LockGranted(lock, payload))
    ensures NothingStale(Apply(w, LockGranted(lock, payload)))
  {
    var w' := Apply(w, LockGranted(lock, payload));
    assert forall l :: Untaken(w', l) <==> Untaken(w, l);
  }

  lemma DestroyKeepsStale(w: World)
    requires Inv(w) && NothingStale(w) && w.pc.SellDestroy?
    ensures NothingStale(Apply(w, Destroy))
  {
    var w' := Apply(w, Destroy);
    assert forall l :: Untaken(w', l) ==> Untaken(w, l) && l != w.pc.lock;
  }

  lemma DeathKeepsStale(w: World, dino: nat)
    requires Inv(w) && NothingStale(w) && Enabled(w, DinoDies(dino)) && Careful(w, DinoDies(dino))
    ensures NothingStale(Apply(w, DinoDies(dino)))
  {
    var w' := Apply(w, DinoDies(dino));
    assert forall l :: Untaken(w', l) <==> Untaken(w, l);
  }

  lemma StepKeepsStale(w: World, e: Event)
    requires Inv(w) && NothingStale(w) && Enabled(w, e) && Careful(w, e)
    ensures NothingStale(Apply(w, e))
  {
    match e
    case Begin(p) => BeginKeepsStale(w, p);
    case Mark(p) => MarkKeepsStale(w, p);
    case CancelSale(_) => SettleKeepsStale(w, e);
    case Confirmed(_, _) => SettleKeepsStale(w, e);
    case Recover(_, _) => SettleKeepsStale(w, e);
    case OtherProtocol(d) => OtherKeepsStale(w, d);
    case LockGranted(lock, payload) => GrantKeepsStale(w, lock, payload);
    case Destroy => DestroyKeepsStale(w);
    case DinoDies(dino) => DeathKeepsStale(w, dino);
    case _ =>
      assert Apply(w, e).disk == w.disk || w.disk.None?;
      NothingNewStale(w, Apply(w, e));
  }

  lemma {:induction false} RunKeepsStale(w: World, es: seq<Event>)
    requires Inv(w) && NothingStale(w) && Legal(w, es) && FreshLocks(w, es) && AllCareful(w, es)
    ensures Inv(Run(w, es)) && NothingStale(Run(w, es))
    decreases |es|
  {
    if es != [] {
      StepKeepsStale(w, es[0]);
      StepKeepsInv(w, es[0]);
      RunKeepsStale(Apply(w, es[0]), es[1..]);
    }
  }

  /** Then every lock that is listed belongs to a sale that took its dino. */
  lemma ListedMeansTaken(dinoOf: bytes -> nat, printOf: bytes -> string, alive: set<nat>, es: seq<Event>, lock: string)
    requires Legal(FirstStart(dinoOf, printOf, alive), es) && FreshLocks(FirstStart(dinoOf, printOf, alive), es)
    requires AllCareful(FirstStart(dinoOf, printOf, alive), es)
    requires lock in Run(FirstStart(dinoOf, printOf, alive), es).hist.listed
    ensures lock in Run(FirstStart(dinoOf, printOf, alive), es).hist.taken
  {
    RunKeepsStale(FirstStart(dinoOf, printOf, alive), es);
  }

  // ---------------------------------------------------------------- the code

  // A listing payload sent to the backend under its asset lock.
  datatype Confirmation = Confirmation(lock: string, payload: bytes)

  // The dino of the record was not taken.
  predicate Droppable(record: PendingRecord, dinoOf: bytes -> nat, alive: set<nat>) {
    record.payload != [] && (record.phase == Prepared || (record.phase == Mutating && dinoOf(record.payload) in alive))
  }

  // The dino of the record is gone, and the backend may not have heard of it.
  predicate Confirmable(record: PendingRecord, dinoOf: bytes -> nat, alive: set<nat>) {
    record.payload != [] && record.phase == Mutating && dinoOf(record.payload) !in alive
  }

  function ToDrop(deliveries: Deliveries, dinoOf: bytes -> nat, alive: set<nat>): set<string> {
    set k | k in deliveries && IsPending(deliveries[k], LISTING) && Droppable(AsPending(deliveries[k]), dinoOf, alive)
  }

  function ToConfirm(deliveries: Deliveries, dinoOf: bytes -> nat, alive: set<nat>): set<string> {
    set k | k in deliveries && IsPending(deliveries[k], LISTING) && Confirmable(AsPending(deliveries[k]), dinoOf, alive)
  }

  function ConfirmationOf(record: Record): Confirmation {
    Confirmation(record.deliveryId, record.payload)
  }

  // What was sent since `before` are the confirmations of these records, each once.
  ghost predicate SentFor(deliveries: Deliveries, asked: set<string>, before: seq<Confirmation>, after: seq<Confirmation>) {
    && asked <= deliveries.Keys && before <= after && |after| == |before| + |asked|
    && forall c :: c in after[|before|..] <==> exists k :: k in asked && c == ConfirmationOf(deliveries[k])
  }

  lemma OneMoreSent(deliveries: Deliveries, asked: set<string>, before: seq<Confirmation>, sent: seq<Confirmation>, key: string)
    requires SentFor(deliveries, asked, before, sent) && key in deliveries && key !in asked
    ensures SentFor(deliveries, asked + {key}, before, sent + [ConfirmationOf(deliveries[key])])
  {
    var after := sent + [ConfirmationOf(deliveries[key])];
    assert after[|before|..] == sent[|before|..] + [ConfirmationOf(deliveries[key])];
    forall c
      ensures c in after[|before|..] <==> exists k :: k in asked + {key} && c == ConfirmationOf(deliveries[k])
    {
      if c in sent[|before|..] {
        var k :| k in asked && c == ConfirmationOf(deliveries[k]);
        assert k in asked + {key};
      }
      if c == ConfirmationOf(deliveries[key]) {
        assert key in asked + {key};
      }
    }
  }

  // What a recovery pass changes.
  datatype PassView = PassView(deliveries: Deliveries, failures: nat, sent: seq<Confirmation>, confirmed: set<string>)

  /**
   A recovery pass that has looked at the records of `done`, of those it found at the start: it
   drops those in `drop`, but for the writes of `failed`, and confirms those in `confirm`.
   */
  ghost predicate Passed(start: PassView, now: PassView, drop: set<string>, confirm: set<string>, done: set<string>, failed: set<string>) {
    && Dropped(start.deliveries, now.deliveries, done * drop, failed)
    && now.failures == start.failures + |failed|
    && SentFor(start.deliveries, done * confirm, start.sent, now.sent)
    && ConfirmedAgain(now.confirmed, done * confirm)
  }

  // The same for the records a pass should drop and confirm.
  ghost predicate Recovered(start: PassView, now: PassView, dinoOf: bytes -> nat, alive: set<nat>, done: set<string>, failed: set<string>) {
    Passed(start, now, ToDrop(start.deliveries, dinoOf, alive), ToConfirm(start.deliveries, dinoOf, alive), done, failed)
  }

  lemma RecoveredAll(start: PassView, now: PassView, dinoOf: bytes -> nat, alive: set<nat>, failed: set<string>)
    requires Recovered(start, now, dinoOf, alive, PendingKeys(start.deliveries, LISTING), failed)
    ensures Dropped(start.deliveries, now.deliveries, ToDrop(start.deliveries, dinoOf, alive), failed)
    ensures now.failures == start.failures + |failed|
    ensures SentFor(start.deliveries, ToConfirm(start.deliveries, dinoOf, alive), start.sent, now.sent)
    ensures ConfirmedAgain(now.confirmed, ToConfirm(start.deliveries, dinoOf, alive))
  {
    var drop, confirm, done := ToDrop(start.deliveries, dinoOf, alive), ToConfirm(start.deliveries, dinoOf, alive), PendingKeys(start.deliveries, LISTING);
    assert done * drop == drop && done * confirm == confirm;
  }

  // The confirmations carried the fingerprints of these records.
  ghost predicate ConfirmedAs(w: World, deliveries: Deliveries, keys: set<string>) {
    forall lock :: Key(lock) in keys ==>
      Key(lock) in deliveries && lock in w.hist.confirmed && w.hist.confirmed[lock] == w.printOf(deliveries[Key(lock)].payload)
  }

  lemma ConfirmedPrints(w: World, start: Deliveries, now: Deliveries, dinoOf: bytes -> nat, alive: set<nat>, failed: set<string>)
    requires ConfirmedIsGone(w) && w.disk == Some(now) && ConfirmedAgain(w.hist.confirmed.Keys, ToConfirm(start, dinoOf, alive))
    requires Dropped(start, now, ToDrop(start, dinoOf, alive), failed)
    ensures ConfirmedAs(w, start, ToConfirm(start, dinoOf, alive))
  {
    forall lock | Key(lock) in ToConfirm(start, dinoOf, alive)
      ensures lock in w.hist.confirmed && w.hist.confirmed[lock] == w.printOf(start[Key(lock)].payload)
    {
      assert lock in w.hist.confirmed.Keys && Key(lock) !in ToDrop(start, dinoOf, alive);
      assert Key(lock) in now && now[Key(lock)] == start[Key(lock)];
    }
  }

  // These records are gone, but for those whose write failed.
  ghost predicate Dropped(start: Deliveries, now: Deliveries, drop: set<string>, failed: set<string>) {
    failed <= drop && now == start - (drop - failed)
  }

  ghost predicate ConfirmedAgain(confirmed: set<string>, keys: set<string>) {
    forall lock :: Key(lock) in keys ==> lock in confirmed
  }

  lemma PassedFirst(start: PassView, drop: set<string>, confirm: set<string>)
    ensures Passed(start, start, drop, confirm, {}, {})
  {
    assert {} * drop == {} && {} * confirm == {};
    assert start.deliveries - ({} - {}) == start.deliveries && start.sent[|start.sent|..] == [];
  }

  // One more record looked at: it is in the set or not.
  lemma OneMoreDone(done: set<string>, keys: set<string>, key: string)
    ensures (done + {key}) * keys == done * keys + if key in keys then {key} else {}
  {
  }

  lemma DroppedNext(start: Deliveries, now: Deliveries, drop: set<string>, failed: set<string>, key: string, written: bool)
    requires Dropped(start, now, drop, failed) && key in start && key !in drop
    ensures Dropped(start, if written then now - {key} else now, drop + {key}, failed + if written then {} else {key})
  {
    var gone := drop - failed;
    if written {
      assert drop + {key} - failed == gone + {key};
    } else {
      assert drop + {key} - (failed + {key}) == gone;
    }
  }

  lemma SentNext(start: Deliveries, asked: set<string>, before: seq<Confirmation>, sent: seq<Confirmation>, confirmed: set<string>, lock: string)
    requires SentFor(start, asked, before, sent) && ConfirmedAgain(confirmed, asked)
    requires Key(lock) in start && Key(lock) !in asked
    ensures SentFor(start, asked + {Key(lock)}, before, sent + [ConfirmationOf(start[Key(lock)])])
    ensures ConfirmedAgain(confirmed + {lock}, asked + {Key(lock)})
  {
    OneMoreSent(start, asked, before, sent, Key(lock));
  }

  lemma SentStep(start: Deliveries, asked: set<string>, before: seq<Confirmation>, sent: seq<Confirmation>, confirmed: set<string>, lock: string, now: bool)
    requires SentFor(start, asked, before, sent) && ConfirmedAgain(confirmed, asked)
    requires Key(lock) in start && Key(lock) !in asked
    ensures SentFor(start, asked + (if now then {Key(lock)} else {}), before, sent + if now then [ConfirmationOf(start[Key(lock)])] else [])
    ensures ConfirmedAgain(confirmed + (if now then {lock} else {}), asked + if now then {Key(lock)} else {})
  {
    if now {
      SentNext(start, asked, before, sent, confirmed, lock);
    } else {
      assert sent + [] == sent && confirmed + {} == confirmed && asked + {} == asked;
    }
  }

  /** What handling one record makes of the view; `written` is whether its write, if it needs one, happened. */
  function AfterRecord(before: PassView, record: PendingRecord, dinoOf: bytes -> nat, alive: set<nat>, written: bool): PassView {
    PassView(if Droppable(record, dinoOf, alive) && written then before.deliveries - {Key(record.deliveryId)} else before.deliveries,
             before.failures + if written then 0 else 1,
             before.sent + (if Confirmable(record, dinoOf, alive) then [Confirmation(record.deliveryId, record.payload)] else []),
             before.confirmed + if Confirmable(record, dinoOf, alive) then {record.deliveryId} else {})
  }

  // The same for the first records, one for each write.
  function AfterPass(start: PassView, records: seq<PendingRecord>, dinoOf: bytes -> nat, alive: set<nat>, writes: seq<bool>): PassView
    requires |writes| <= |records|
    decreases |writes|
  {
    if writes == [] then start
    else
      var last := |writes| - 1;
      AfterRecord(AfterPass(start, records, dinoOf, alive, writes[..last]), records[last], dinoOf, alive, writes[last])
  }

  lemma OneMoreRecord(start: PassView, records: seq<PendingRecord>, dinoOf: bytes -> nat, alive: set<nat>, writes: seq<bool>, written: bool)
    requires |writes| < |records|
    ensures AfterPass(start, records, dinoOf, alive, writes + [written]) ==
            AfterRecord(AfterPass(start, records, dinoOf, alive, writes), records[|writes|], dinoOf, alive, written)
  {
    assert (writes + [written])[..|writes|] == writes;
  }

  lemma PassedNext(start: PassView, before: PassView, dinoOf: bytes -> nat, alive: set<nat>, drop: set<string>, confirm: set<string>,
                   done: set<string>, failed: set<string>, record: PendingRecord, written: bool)
    requires Passed(start, before, drop, confirm, done, failed)
    requires Key(record.deliveryId) in start.deliveries && Key(record.deliveryId) !in done && AsPending(start.deliveries[Key(record.deliveryId)]) == record
    requires Key(record.deliveryId) in drop <==> Droppable(record, dinoOf, alive)
    requires Key(record.deliveryId) in confirm <==> Confirmable(record, dinoOf, alive)
    requires written || Droppable(record, dinoOf, alive)
    ensures Passed(start, AfterRecord(before, record, dinoOf, alive, written), drop, confirm,
                   done + {Key(record.deliveryId)}, failed + if written then {} else {Key(record.deliveryId)})
  {
    var lock := record.deliveryId;
    OneMoreDone(done, drop, Key(lock));
    OneMoreDone(done, confirm, Key(lock));
    if Key(lock) in drop {
      DroppedNext(start.deliveries, before.deliveries, done * drop, failed, Key(lock), written);
    }
    SentStep(start.deliveries, done * confirm, start.sent, before.sent, before.confirmed, lock, Key(lock) in confirm);
  }

  // The unfinished listing records, each once, with the keys they are under.
  ghost predicate Listed(records: seq<PendingRecord>, keys: seq<string>, deliveries: Deliveries) {
    && |keys| == |records|
    && (forall i, j :: 0 <= i < j < |keys| ==> keys[i] != keys[j])
    && (forall k :: k in keys <==> k in PendingKeys(deliveries, LISTING))
    && (forall i :: 0 <= i < |keys| ==>
                      keys[i] in deliveries && records[i] == AsPending(deliveries[keys[i]]) && keys[i] == Key(records[i].deliveryId))
  }

  function KeySet(keys: seq<string>, n: nat): set<string>
    requires n <= |keys|
  {
    if n == 0 then {} else KeySet(keys, n - 1) + {keys[n - 1]}
  }

  lemma {:induction false} KeysSoFar(keys: seq<string>, n: nat, key: string)
    requires n <= |keys|
    ensures key in KeySet(keys, n) <==> exists i :: 0 <= i < n && keys[i] == key
    decreases n
  {
    if n > 0 {
      KeysSoFar(keys, n - 1, key);
    }
  }

  lemma AllListed(records: seq<PendingRecord>, keys: seq<string>, deliveries: Deliveries)
    requires Listed(records, keys, deliveries)
    ensures KeySet(keys, |keys|) == PendingKeys(deliveries, LISTING)
  {
    forall k
      ensures k in KeySet(keys, |keys|) <==> k in PendingKeys(deliveries, LISTING)
    {
      KeysSoFar(keys, |keys|, k);
      assert k in keys <==> k in PendingKeys(deliveries, LISTING);
    }
  }

  lemma NextListed(records: seq<PendingRecord>, keys: seq<string>, deliveries: Deliveries, i: nat)
    requires Listed(records, keys, deliveries) && i < |keys|
    ensures keys[i] == Key(records[i].deliveryId) && keys[i] in PendingKeys(deliveries, LISTING) - KeySet(keys, i)
    ensures records[i] == AsPending(deliveries[keys[i]])
  {
    KeysSoFar(keys, i, keys[i]);
    assert keys[i] in keys;
  }

  // The keys whose write did not happen.
  function FailedKeys(keys: seq<string>, writes: seq<bool>): set<string>
    requires |writes| <= |keys|
    decreases |writes|
  {
    if writes == [] then {}
    else
      var last := |writes| - 1;
      FailedKeys(keys, writes[..last]) + if writes[last] then {} else {keys[last]}
  }

  // Only a record that is to be dropped needs a write.
  predicate WritesFit(records: seq<PendingRecord>, dinoOf: bytes -> nat, alive: set<nat>, writes: seq<bool>) {
    |writes| <= |records| && forall i :: 0 <= i < |writes| ==> writes[i] || Droppable(records[i], dinoOf, alive)
  }

  lemma {:induction false} PassRecovers(start: PassView, records: seq<PendingRecord>, keys: seq<string>, dinoOf: bytes -> nat, alive: set<nat>,
                                        writes: seq<bool>)
    requires Listed(records, keys, start.deliveries) && WritesFit(records, dinoOf, alive, writes)
    ensures Recovered(start, AfterPass(start, records, dinoOf, alive, writes), dinoOf, alive, KeySet(keys, |writes|), FailedKeys(keys, writes))
    decreases |writes|
  {
    var drop, confirm := ToDrop(start.deliveries, dinoOf, alive), ToConfirm(start.deliveries, dinoOf, alive);
    if writes == [] {
      PassedFirst(start, drop, confirm);
    } else {
      var last := |writes| - 1;
      PassRecovers(start, records, keys, dinoOf, alive, writes[..last]);
      NextListed(records, keys, start.deliveries, last);
      PassedNext(start, AfterPass(start, records, dinoOf, alive, writes[..last]), dinoOf, alive, drop, confirm,
                 KeySet(keys, last), FailedKeys(keys, writes[..last]), records[last], writes[last]);
    }
  }

  // A record the pass has not come to is still there.
  lemma StillThere(start: PassView, records: seq<PendingRecord>, keys: seq<string>, dinoOf: bytes -> nat, alive: set<nat>, writes: seq<bool>)
    requires Listed(records, keys, start.deliveries) && WritesFit(records, dinoOf, alive, writes) && |writes| < |records|
    ensures var now, record := AfterPass(start, records, dinoOf, alive, writes).deliveries, records[|writes|];
            Key(record.deliveryId) in now && AsPending(now[Key(record.deliveryId)]) == record && record.phase != Completed
  {
    PassRecovers(start, records, keys, dinoOf, alive, writes);
    NextListed(records, keys, start.deliveries, |writes|);
  }

  /**
   The marketplace side of one plugin process. As in HeartShop, `log` records every protocol
   step since the first start and `world` is where they lead.
   */
  class Marketplace {
    const dinoOf: bytes -> nat
    ghost const printOf: bytes -> string
    var journal: DeliveryJournal?
    var alive: set<nat>
    var sent: seq<Confirmation>
    ghost var world: World
    ghost var log: seq<Event>
    ghost const firstAlive: set<nat>

    ghost predicate Agrees()
      reads this, journal
    {
      && Legal(FirstStart(dinoOf, printOf, firstAlive), log) && FreshLocks(FirstStart(dinoOf, printOf, firstAlive), log)
      && Run(FirstStart(dinoOf, printOf, firstAlive), log) == world
      && world.alive == alive && world.dinoOf == dinoOf && world.printOf == printOf
      && (journal == null ==> world.memory == None)
      && (journal != null ==> world.memory == Some(journal.deliveries) && world.disk == journal.disk)
    }

    ghost predicate Valid()
      reads this, journal
    {
      Agrees() && world.pc.Idle?
    }

    lemma InvHolds()
      requires Agrees()
      ensures Inv(world)
    {
      RunKeepsInv(FirstStart(dinoOf, printOf, firstAlive), log);
    }

    ghost method Take(e: Event)
      requires Legal(FirstStart(dinoOf, printOf, firstAlive), log) && FreshLocks(FirstStart(dinoOf, printOf, firstAlive), log)
      requires Run(FirstStart(dinoOf, printOf, firstAlive), log) == world
      requires Enabled(world, e) && FreshLock(world, e)
      modifies this`world, this`log
      ensures world == Apply(old(world), e) && log == old(log) + [e]
      ensures Legal(FirstStart(dinoOf, printOf, firstAlive), log) && FreshLocks(FirstStart(dinoOf, printOf, firstAlive), log)
      ensures Run(FirstStart(dinoOf, printOf, firstAlive), log) == world
      ensures Inv(world)
    {
      var next := Apply(world, e);
      assert Legal(next, []) && FreshLocks(next, []) && Run(next, []) == next;
      Prepend(world, e, []);
      assert [e] + [] == [e];
      RunConcat(FirstStart(dinoOf, printOf, firstAlive), log, [e]);
      world, log := next, log + [e];
      RunKeepsInv(FirstStart(dinoOf, printOf, firstAlive), log);
    }

    /**
     Starts a process after any earlier run, over the file that run left behind: `firstAlive`
     are the dinos before it, `alive` those it left.
     */
    constructor (dinoOf: bytes -> nat, ghost printOf: bytes -> string, ghost firstAlive: set<nat>, alive: set<nat>,
                 file: Option<Deliveries>, readable: bool, ghost before: seq<Event>)
      requires Legal(FirstStart(dinoOf, printOf, firstAlive), before) && FreshLocks(FirstStart(dinoOf, printOf, firstAlive), before)
      requires var w := Run(FirstStart(dinoOf, printOf, firstAlive), before); w.pc.Down? && w.disk == file && w.alive == alive
      ensures Valid() && log == before + [Start(readable, journal != null)] && sent == []
      ensures journal != null ==> fresh(journal)
      ensures file.Some? ==> (journal != null <==> readable) && (journal != null ==> journal.deliveries == file.value)
      ensures this.dinoOf == dinoOf && this.printOf == printOf && this.firstAlive == firstAlive && this.alive == alive
      ensures world.hist == Run(FirstStart(dinoOf, printOf, firstAlive), before).hist
    {
      this.dinoOf, this.printOf, this.alive, this.firstAlive, journal := dinoOf, printOf, alive, firstAlive, null;
      sent := [];
      world, log := Run(FirstStart(dinoOf, printOf, firstAlive), before), before;
      new;
      RunKeepsInv(FirstStart(dinoOf, printOf, firstAlive), before);
      KindStays(FirstStart(dinoOf, printOf, firstAlive), before);
      var loading := new DeliveryJournal(file);
      var ok := loading.Load(readable);
      Take(Start(readable, ok));
      if ok {
        journal := loading;
      }
    }

    // How many journal writes have failed.
    ghost function Failures(): nat
      reads this, journal
    {
      if journal == null then 0 else journal.failures
    }

    /**
     The prepare-lock callback, once a fresh lock was granted. It destroys the dino only with its
     whole payload durably recorded, and only then asks the backend to list it; it does both
     exactly when the dino still lives and every write succeeds.
     */
    method FinishSale(lock: string, payload: bytes) returns (secured: bool)
      requires Valid() && lock !in world.hist.issued && payload != []
      modifies this`world, this`log, this`alive, this`sent, journal
      ensures Valid() && old(log) < log
      ensures alive == if secured then old(alive) - {dinoOf(payload)} else old(alive)
      ensures sent == old(sent) + if secured then [Confirmation(lock, payload)] else []
      ensures Failures() >= old(Failures())
      ensures secured <==> dinoOf(payload) in old(alive) && journal != null && Failures() == old(Failures())
      ensures secured ==>
                && lock in world.hist.confirmed
                && Key(lock) in journal.deliveries
                && journal.deliveries[Key(lock)].payload == payload && journal.deliveries[Key(lock)].phase == Mutating
      // Without a sale only a prepared record may stay, when taking it back could not be written either.
      ensures !secured && journal != null && Key(lock) in journal.deliveries ==>
                journal.deliveries[Key(lock)].phase == Prepared && Failures() == old(Failures()) + 2
      ensures journal != null ==> Journal.OthersKept(old(journal.deliveries), journal.deliveries, Key(lock))
    {
      InvHolds();
      Take(LockGranted(lock, payload));
      if dinoOf(payload) !in alive {
        return false;
      }
      ghost var before := if journal == null then map[] else journal.deliveries;
      var recorded := RecordSale(lock, payload);
      ghost var between := if journal == null then map[] else journal.deliveries;
      if !recorded {
        GiveUpSale(lock);
        if journal != null {
          OthersKeptTransitive(before, between, journal.deliveries, Key(lock));
        }
        return false;
      }
      DestroyAndConfirm(lock, payload);
      return true;
    }

    method DestroyAndConfirm(lock: string, payload: bytes)
      requires Agrees() && Inv(world) && world.pc == SellDestroy(lock, payload) && dinoOf(payload) in alive && journal != null
      modifies this`world, this`log, this`alive, this`sent
      ensures Valid() && old(log) < log && alive == old(alive) - {dinoOf(payload)} && lock in world.hist.confirmed
      ensures sent == old(sent) + [Confirmation(lock, payload)]
      ensures Key(lock) in journal.deliveries
      ensures journal.deliveries[Key(lock)].payload == payload && journal.deliveries[Key(lock)].phase == Mutating
    {
      alive := alive - {dinoOf(payload)};
      Take(Destroy);
      ConfirmPreparedDinoListing(lock, payload);
      Take(Confirm);
    }

    // Asks the backend to list a dino: only one that is gone, and with its payload on record.
    method ConfirmPreparedDinoListing(lock: string, payload: bytes)
      requires dinoOf(payload) !in alive && journal != null && Key(lock) in journal.deliveries
      requires journal.deliveries[Key(lock)].payload == payload && journal.deliveries[Key(lock)].phase == Mutating
      modifies this`sent
      ensures sent == old(sent) + [Confirmation(lock, payload)]
    {
      sent := sent + [Confirmation(lock, payload)];
    }

    // The record could not be made durable: abort it, and let the lock be cancelled.
    method GiveUpSale(lock: string)
      requires Agrees() && Inv(world) && world.pc == SellAbort(lock)
      modifies this`world, this`log, journal
      ensures Valid() && old(log) < log
      ensures old(Failures()) <= Failures() <= old(Failures()) + 1
      ensures journal != null && Key(lock) in journal.deliveries ==>
                journal.deliveries == old(journal.deliveries) && Failures() == old(Failures()) + 1
      ensures journal != null ==> Journal.OthersKept(old(journal.deliveries), journal.deliveries, Key(lock))
    {
      ghost var persisted := false;
      if journal != null {
        var aborted;
        aborted, persisted := journal.Abort(LISTING, lock);
      }
      Take(CancelSale(persisted));
    }

    // Begin and MarkMutating, both or neither leading on.
    method RecordSale(lock: string, payload: bytes) returns (recorded: bool)
      requires Agrees() && Inv(world) && world.pc == SellBegin(lock, payload)
      modifies this`world, this`log, journal
      ensures Agrees() && Inv(world) && old(log) < log && world.hist == old(world).hist
      ensures world.pc == if recorded then SellDestroy(lock, payload) else SellAbort(lock)
      ensures old(Failures()) <= Failures() <= old(Failures()) + 1
      ensures recorded <==> journal != null && Failures() == old(Failures())
      ensures !recorded && journal != null && Key(lock) in journal.deliveries ==> journal.deliveries[Key(lock)].phase == Prepared
      ensures journal != null ==> Journal.OthersKept(old(journal.deliveries), journal.deliveries, Key(lock))
    {
      if journal == null {
        Take(Begin(false));
        return false;
      }
      var begun := BeginSale(lock, payload);
      if begun != Started {
        return false;
      }
      ghost var before := journal.deliveries;
      recorded := MarkSale(lock, payload);
      OthersKeptTransitive(old(journal.deliveries), before, journal.deliveries, Key(lock));
    }

    method BeginSale(lock: string, payload: bytes) returns (begun: BeginResult)
      requires Agrees() && Inv(world) && world.pc == SellBegin(lock, payload) && journal != null
      modifies this`world, this`log, journal
      ensures Agrees() && Inv(world) && old(log) < log && world.hist == old(world).hist
      ensures world.pc == if begun == Started then SellMark(lock, payload) else SellAbort(lock)
      ensures Failures() == old(Failures()) + if begun == Started then 0 else 1
      ensures begun != Started ==> Key(lock) !in journal.deliveries
      ensures Journal.OthersKept(old(journal.deliveries), journal.deliveries, Key(lock))
    {
      ghost var persisted;
      begun, persisted := journal.Begin(LISTING, lock, payload);
      Take(Begin(persisted));
    }

    method MarkSale(lock: string, payload: bytes) returns (marked: bool)
      requires Agrees() && Inv(world) && world.pc == SellMark(lock, payload) && journal != null
      modifies this`world, this`log, journal
      ensures Agrees() && Inv(world) && old(log) < log && world.hist == old(world).hist
      ensures world.pc == if marked then SellDestroy(lock, payload) else SellAbort(lock)
      ensures Failures() == old(Failures()) + if marked then 0 else 1
      ensures !marked ==> journal.deliveries == old(journal.deliveries) && Key(lock) in journal.deliveries && journal.deliveries[Key(lock)].phase == Prepared
      ensures Journal.OthersKept(old(journal.deliveries), journal.deliveries, Key(lock))
    {
      ghost var persisted;
      marked, persisted := journal.MarkMutating(LISTING, lock);
      Take(Mark(persisted));
    }

    /**
     One pass over the unfinished listings, as every poll makes. Every record of a dino that was
     not taken is dropped, unless its write failed; for every record of a dino that is gone the
     confirmation is sent again, once; nothing else changes.
     */
    method RecoverPendingDinoListings() returns (ghost failed: set<string>)
      requires Valid()
      modifies this`world, this`log, this`sent, journal
      ensures Valid() && old(log) <= log && alive == old(alive)
      ensures world.hist.taken == old(world).hist.taken
      ensures journal == null ==> sent == old(sent)
      ensures journal != null ==>
                && Dropped(old(journal.deliveries), journal.deliveries, ToDrop(old(journal.deliveries), dinoOf, alive), failed)
                && Failures() == old(Failures()) + |failed|
                && SentFor(old(journal.deliveries), ToConfirm(old(journal.deliveries), dinoOf, alive), old(sent), sent)
                && ConfirmedAs(world, old(journal.deliveries), ToConfirm(old(journal.deliveries), dinoOf, alive))
    {
      failed := {};
      if journal == null {
        return;
      }
      var records;
      ghost var keys;
      records, keys := journal.Pending(LISTING);
      ghost var start := journal.deliveries;
      InvHolds();
      assert Listed(records, keys, start);
      ghost var writes := RecoverAll(records, keys);
      failed := FailedKeys(keys, writes);
      PassRecovers(old(Now()), records, keys, dinoOf, alive, writes);
      AllListed(records, keys, start);
      RecoveredAll(old(Now()), Now(), dinoOf, alive, failed);
      InvHolds();
      ConfirmedPrints(world, start, journal.deliveries, dinoOf, alive, failed);
    }

    // The records found by a pass, one after the other.
    method RecoverAll(records: seq<PendingRecord>, ghost keys: seq<string>) returns (ghost writes: seq<bool>)
      requires Valid() && journal != null && Listed(records, keys, journal.deliveries)
      modifies this`world, this`log, this`sent, journal
      ensures Valid() && old(log) <= log && world.hist.taken == old(world).hist.taken
      ensures |writes| == |records| && WritesFit(records, dinoOf, alive, writes)
      ensures Now() == AfterPass(old(Now()), records, dinoOf, alive, writes)
    {
      writes := [];
      ghost var start := Now();
      for i := 0 to |records|
        invariant Valid() && old(log) <= log && world.hist.taken == old(world).hist.taken
        invariant |writes| == i && WritesFit(records, dinoOf, alive, writes)
        invariant Now() == AfterPass(start, records, dinoOf, alive, writes)
      {
        StillThere(start, records, keys, dinoOf, alive, writes);
        var written := RecoverOne(records[i]);
        OneMoreRecord(start, records, dinoOf, alive, writes, written);
        writes := writes + [written];
      }
    }

    ghost function Now(): PassView
      reads this, journal
    {
      PassView(if journal == null then map[] else journal.deliveries, Failures(), sent, world.hist.confirmed.Keys)
    }

    method RecoverOne(record: PendingRecord) returns (ghost written: bool)
      requires Valid() && journal != null
      requires Key(record.deliveryId) in journal.deliveries && AsPending(journal.deliveries[Key(record.deliveryId)]) == record
      requires record.phase != Completed
      modifies this`world, this`log, this`sent, journal
      ensures Valid() && old(log) <= log && world.hist.taken == old(world).hist.taken
      ensures written || Droppable(record, dinoOf, alive)
      ensures Now() == AfterRecord(old(Now()), record, dinoOf, alive, written)
    {
      written := true;
      ghost var persisted := false;
      if record.payload != [] {
        if record.phase == Prepared {
          var aborted;
          aborted, persisted := journal.Abort(LISTING, record.deliveryId);
          written := aborted;
        } else if record.phase == Mutating {
          if dinoOf(record.payload) in alive {
            var aborted;
            aborted, persisted := journal.Abort(LISTING, record.deliveryId);
            written := aborted;
          } else {
            ConfirmPreparedDinoListing(record.deliveryId, record.payload);
          }
        }
      }
      Take(Recover(record.deliveryId, persisted));
    }

    /** The backend's answer to a confirmation: the record is completed only if it listed the dino. */
    method OnConfirmed(lock: string, success: bool) returns (completed: bool)
      requires Valid() && (success ==> lock in world.hist.listed)
      modifies this`world, this`log, journal
      ensures Valid() && old(log) <= log
      ensures Failures() >= old(Failures())
      ensures completed <==> success && journal != null && Key(lock) in old(journal.deliveries) && Failures() == old(Failures())
      ensures journal != null ==>
                journal.deliveries == if completed then old(journal.deliveries)[Key(lock) := old(journal.deliveries)[Key(lock)].(phase := Completed)]
                                      else old(journal.deliveries)
    {
      completed := false;
      if success && journal != null {
        ghost var persisted;
        completed, persisted := journal.Complete(LISTING, lock);
        Take(Confirmed(lock, persisted));
      }
    }
  }
}
