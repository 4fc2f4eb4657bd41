/**
 One plugin process with all its protocols on one journal (HeartShop.cpp, PollPendingOrders and
 ProcessPermissionDelivery; Commands.cpp, the callback of SellDinoCommand).

 `Delivery` and `DinoListing` each let "some other protocol" change the journal, as long as it
 keeps their records. Here the two really run side by side, with permission jobs besides. Every
 shared run is proved to be a legal run of each of them, so what they prove holds here as well.
 All three work on the game thread: a job, a sale's callback and a poll do not overlap.
 */
module SharedJournal {
  import opened Journal
  import opened Fingerprints
  import opened Options
  import D = Delivery
  import L = DinoListing

  datatype World = World(delivery: D.World, listing: L.World)

  datatype Event =
    | DeliveryStep(d: D.Event)
    | ListingStep(l: L.Event)
    | PermissionStep(op: Operation, persisted: bool)
    | Crash
    | Start(readable: bool, persisted: bool)

  predicate OfListing(key: string) {
    L.PREFIX <= key
  }

  // What happens outside the plugin, whatever it is doing.
  predicate Outside(l: L.Event) {
    l.BackendLists? || l.LockExpires? || l.DinoDies? || l.DinoBorn?
  }

  function FirstStart(dinoOf: bytes -> nat, printOf: bytes -> string, alive: set<nat>): World {
    World(D.FirstStart(), L.FirstStart(dinoOf, printOf, alive))
  }

  // The backend claims no delivery of the listing type, and permission jobs have their own types.
  ghost predicate Enabled(w: World, e: Event) {
    match e
    case DeliveryStep(d) =>
      && !d.OtherProtocol? && !d.Crash? && !d.Start?
      && w.listing.pc.Idle? && D.Enabled(w.delivery, d) && (d.Claim? ==> !OfListing(d.job.Key()))
    case ListingStep(l) =>
      && !l.OtherProtocol? && !l.Crash? && !l.Start?
      && (w.delivery.pc.Idle? || Outside(l)) && L.Enabled(w.listing, l)
    case PermissionStep(op, _) =>
      && w.delivery.pc.Idle? && w.listing.pc.Idle? && w.delivery.memory.Some?
      && !D.Owned(KeyOf(op)) && !OfListing(KeyOf(op))
    case Crash => !w.delivery.pc.Down? && !w.listing.pc.Down?
    case Start(_, _) => w.delivery.pc.Down? && w.listing.pc.Down?
  }

  function Apply(w: World, e: Event): World
    requires Enabled(w, e)
  {
    match e
    case DeliveryStep(d) =>
      var next := D.Apply(w.delivery, d);
      World(next, w.listing.(memory := next.memory, disk := next.disk))
    case ListingStep(l) =>
      var next := L.Apply(w.listing, l);
      World(w.delivery.(memory := next.memory, disk := next.disk), next)
    case PermissionStep(op, persisted) =>
      var s := Perform(D.StoreOf(w.delivery), op, persisted);
      World(w.delivery.(memory := Some(s.memory), disk := s.disk), w.listing.(memory := Some(s.memory), disk := s.disk))
    case Crash => World(D.Apply(w.delivery, D.Crash), L.Apply(w.listing, L.Crash))
    case Start(readable, persisted) =>
      World(D.Apply(w.delivery, D.Start(readable, persisted)), L.Apply(w.listing, L.Start(readable, persisted)))
  }

  ghost predicate Legal(w: World, es: seq<Event>)
    decreases |es|
  {
    es == [] || (Enabled(w, es[0]) && Legal(Apply(w, es[0]), es[1..]))
  }

  function Run(w: World, es: seq<Event>): World
    requires Legal(w, es)
    decreases |es|
  {
    if es == [] then w else Run(Apply(w, es[0]), es[1..])
  }

  // ---------------------------------------------------------------- what each protocol sees

  function DeliveryView(w: World, e: Event): seq<D.Event>
    requires Enabled(w, e)
  {
    match e
    case DeliveryStep(d) => [d]
    case Crash => [D.Crash]
    case Start(readable, persisted) => [D.Start(readable, persisted)]
    case _ =>
      var m := Apply(w, e).delivery.memory;
      if m.Some? && w.delivery.pc.Idle? then [D.OtherProtocol(m.value)] else []
  }

  function ListingView(w: World, e: Event): seq<L.Event>
    requires Enabled(w, e)
  {
    match e
    case ListingStep(l) => [l]
    case Crash => [L.Crash]
    case Start(readable, persisted) => [L.Start(readable, persisted)]
    case _ =>
      var m := Apply(w, e).listing.memory;
      if m.Some? then [L.OtherProtocol(m.value)] else []
  }

  function DeliveryRun(w: World, es: seq<Event>): seq<D.Event>
    requires Legal(w, es)
    decreases |es|
  {
    if es == [] then [] else DeliveryView(w, es[0]) + DeliveryRun(Apply(w, es[0]), es[1..])
  }

  function ListingRun(w: World, es: seq<Event>): seq<L.Event>
    requires Legal(w, es)
    decreases |es|
  {
    if es == [] then [] else ListingView(w, es[0]) + ListingRun(Apply(w, es[0]), es[1..])
  }

  // ---------------------------------------------------------------- one record at a time

  // One step changes one record, and a new record sits under the key its type and id make.
  ghost predicate OneChange(before: Deliveries, after: Deliveries, key: string) {
    && (forall k :: k != key ==> Keeps(before, after, k))
    && (key in after ==>
          (key in before && after[key].deliveryType == before[key].deliveryType) ||
          key == MakeKey(after[key].deliveryType, after[key].deliveryId))
  }

  // Records of the listing type have listing keys.
  ghost predicate TypesMatch(m: Deliveries) {
    forall k :: k in m && m[k].deliveryType == L.LISTING ==> OfListing(k)
  }

  lemma OperationChangesOne(s: Store, op: Operation, persisted: bool)
    requires s.InSync()
    ensures Perform(s, op, persisted).InSync() && OneChange(s.memory, Perform(s, op, persisted).memory, KeyOf(op))
  {
  }

  lemma ChangeKeepsTypes(before: Deliveries, after: Deliveries, key: string)
    requires TypesMatch(before) && OneChange(before, after, key)
    ensures TypesMatch(after)
  {
    forall k | k in after && after[k].deliveryType == L.LISTING
      ensures OfListing(k)
    {
      if k != key {
        assert Keeps(before, after, k);
      } else if key == MakeKey(after[key].deliveryType, after[key].deliveryId) {
        assert key == L.Key(after[key].deliveryId);
      }
    }
  }

  lemma FitsDelivery(before: Deliveries, after: Deliveries, key: string)
    requires OneChange(before, after, key) && !D.Owned(key)
    ensures forall k :: D.Owned(k) ==> Keeps(before, after, k)
  {
  }

  lemma FitsListing(before: Deliveries, after: Deliveries, key: string)
    requires TypesMatch(before) && OneChange(before, after, key) && !OfListing(key)
    ensures forall lock :: Keeps(before, after, L.Key(lock))
    ensures forall k :: k in after && after[k].deliveryType == L.LISTING ==> k in before && after[k] == before[k]
  {
    ChangeKeepsTypes(before, after, key);
    forall lock
      ensures Keeps(before, after, L.Key(lock))
    {
      assert OfListing(L.Key(lock));
    }
    forall k | k in after && after[k].deliveryType == L.LISTING
      ensures k in before && after[k] == before[k]
    {
      assert OfListing(k);
      assert Keeps(before, after, k);
    }
  }

  // The keys of permission jobs and of givable deliveries are as the guards above ask.
  lemma PermissionKeysAreNeither(t: string, id: string)
    requires t == D.PERMISSION_GRANT || t == D.PERMISSION_REVOKE
    ensures !D.Owned(MakeKey(t, id)) && !OfListing(MakeKey(t, id))
  {
    D.OtherProtocolsOwnNothing(t, id);
    assert MakeKey(t, id)[0] == t[0] && L.PREFIX[0] == 'd';
  }

  lemma GivableKeysAreNoListings(t: string, id: string)
    requires D.Givable(t)
    ensures !OfListing(MakeKey(t, id))
  {
    assert MakeKey(t, id)[0] == t[0] && (t != "order" ==> MakeKey(t, id)[5] == t[5]);
    assert L.PREFIX[0] == 'd' && L.PREFIX[5] == 'l';
  }

  // ---------------------------------------------------------------- the steps of each protocol

  predicate HasJob(pc: D.Pc) {
    !pc.Down? && !pc.Idle?
  }

  lemma DeliveryChangesOne(w: D.World, e: D.Event)
    requires D.Enabled(w, e) && !e.OtherProtocol? && !e.Crash? && !e.Start?
    requires w.memory.Some? && w.disk == w.memory
    ensures var w' := D.Apply(w, e);
            && w'.memory.Some? && w'.disk == w'.memory
            && (HasJob(w.pc) ==> OneChange(w.memory.value, w'.memory.value, w.pc.job.Key()))
            && (!HasJob(w.pc) ==> w'.memory == w.memory)
  {
    var s := D.StoreOf(w);
    match e
    case Begin(p) => OperationChangesOne(s, OpBegin(w.pc.job.deliveryType, w.pc.job.deliveryKey, w.pc.job.payload), p);
    case Mark(p) => OperationChangesOne(s, OpMark(w.pc.job.Key()), p);
    case Complete(p) => OperationChangesOne(s, OpComplete(w.pc.job.Key()), p);
    case Abort(p) => OperationChangesOne(s, OpAbort(w.pc.job.Key()), p);
    case _ =>
  }

  lemma NothingLoaded(w: D.World, e: D.Event)
    requires D.Enabled(w, e) && !e.OtherProtocol? && !e.Crash? && !e.Start? && w.memory.None?
    ensures D.Apply(w, e).memory == None && D.Apply(w, e).disk == w.disk
  {
  }

  // The lock a listing step writes to the journal for, if it does.
  function LockOf(w: L.World, l: L.Event): Option<string>
    requires L.Enabled(w, l)
  {
    match l
    case Begin(_) => Some(w.pc.lock)
    case Mark(_) => Some(w.pc.lock)
    case CancelSale(_) => Some(w.pc.lock)
    case Recover(lock, _) => Some(lock)
    case Confirmed(lock, _) => Some(lock)
    case _ => None
  }

  lemma ListingChangesOne(w: L.World, l: L.Event)
    requires L.Enabled(w, l) && !l.OtherProtocol? && !l.Crash? && !l.Start?
    requires w.memory.Some? && w.disk == w.memory
    ensures var w' := L.Apply(w, l);
            && w'.memory.Some? && w'.disk == w'.memory
            && (LockOf(w, l).Some? ==> OneChange(w.memory.value, w'.memory.value, L.Key(LockOf(w, l).value)))
            && (LockOf(w, l).None? ==> w'.memory == w.memory)
  {
    var s := L.StoreOf(w);
    match l
    case Begin(p) => OperationChangesOne(s, OpBegin(L.LISTING, w.pc.lock, w.pc.payload), p);
    case Mark(p) => OperationChangesOne(s, OpMark(L.Key(w.pc.lock)), p);
    case CancelSale(p) => OperationChangesOne(s, OpAbort(L.Key(w.pc.lock)), p);
    case Recover(lock, p) => OperationChangesOne(s, OpAbort(L.Key(lock)), p);
    case Confirmed(lock, p) => OperationChangesOne(s, OpComplete(L.Key(lock)), p);
    case _ =>
  }

  lemma NoListingLoaded(w: L.World, l: L.Event)
    requires L.Enabled(w, l) && !l.OtherProtocol? && !l.Crash? && !l.Start? && w.memory.None?
    ensures L.Apply(w, l).memory == None && L.Apply(w, l).disk == w.disk
  {
  }

  // ---------------------------------------------------------------- every shared step fits both

  // Both see one journal, and one of them at most is at work.
  ghost predicate Coupled(w: World) {
    && w.delivery.memory == w.listing.memory && w.delivery.disk == w.listing.disk
    && (w.delivery.memory.Some? ==> w.delivery.disk == w.delivery.memory)
    && (w.delivery.disk.Some? ==> TypesMatch(w.delivery.disk.value))
    && (w.delivery.pc.Down? <==> w.listing.pc.Down?)
    && (w.delivery.pc.Down? ==> w.delivery.memory.None?)
    && (HasJob(w.delivery.pc) ==> w.listing.pc.Idle? && !OfListing(w.delivery.pc.job.Key()))
  }

  lemma DeliveryStepFits(w: World, d: D.Event)
    requires Coupled(w) && Enabled(w, DeliveryStep(d))
    ensures Coupled(Apply(w, DeliveryStep(d)))
    ensures var m := D.Apply(w.delivery, d).memory;
            if w.listing.memory.None? then m == None && D.Apply(w.delivery, d).disk == w.listing.disk
            else m.Some? && L.Enabled(w.listing, L.OtherProtocol(m.value)) && D.Apply(w.delivery, d).disk == m
  {
    if w.delivery.memory.None? {
      NothingLoaded(w.delivery, d);
    } else {
      DeliveryChangesOne(w.delivery, d);
      if HasJob(w.delivery.pc) {
        var before, after, key := w.delivery.memory.value, D.Apply(w.delivery, d).memory.value, w.delivery.pc.job.Key();
        ChangeKeepsTypes(before, after, key);
        FitsListing(before, after, key);
      }
    }
  }

  lemma ListingStepFits(w: World, l: L.Event)
    requires Coupled(w) && Enabled(w, ListingStep(l))
    ensures Coupled(Apply(w, ListingStep(l)))
    ensures var m := L.Apply(w.listing, l).memory;
            if w.delivery.memory.None? || !w.delivery.pc.Idle? then m == w.delivery.memory && L.Apply(w.listing, l).disk == w.delivery.disk
            else m.Some? && D.Enabled(w.delivery, D.OtherProtocol(m.value)) && L.Apply(w.listing, l).disk == m
  {
    if w.listing.memory.None? {
      NoListingLoaded(w.listing, l);
    } else {
      ListingChangesOne(w.listing, l);
      if LockOf(w.listing, l).Some? {
        var before, after, lock := w.listing.memory.value, L.Apply(w.listing, l).memory.value, LockOf(w.listing, l).value;
        ChangeKeepsTypes(before, after, L.Key(lock));
        D.OtherProtocolsOwnNothing(L.LISTING, lock);
        FitsDelivery(before, after, L.Key(lock));
      }
    }
  }

  lemma PermissionStepFits(w: World, op: Operation, persisted: bool)
    requires Coupled(w) && Enabled(w, PermissionStep(op, persisted))
    ensures Coupled(Apply(w, PermissionStep(op, persisted)))
    ensures var s := Perform(D.StoreOf(w.delivery), op, persisted);
            s.InSync() && D.Enabled(w.delivery, D.OtherProtocol(s.memory)) && L.Enabled(w.listing, L.OtherProtocol(s.memory))
  {
    var s := D.StoreOf(w.delivery);
    OperationChangesOne(s, op, persisted);
    ChangeKeepsTypes(s.memory, Perform(s, op, persisted).memory, KeyOf(op));
    FitsDelivery(s.memory, Perform(s, op, persisted).memory, KeyOf(op));
    FitsListing(s.memory, Perform(s, op, persisted).memory, KeyOf(op));
  }

  lemma ListingOne(w: L.World, l: L.Event)
    requires L.Enabled(w, l)
    ensures L.Legal(w, [l]) && L.Run(w, [l]) == L.Apply(w, l)
  {
    var next := L.Apply(w, l);
    assert [l][0] == l && [l][1..] == [];
    assert L.Legal(next, []) && L.Run(next, []) == next;
  }

  lemma DeliverySees(w: World, e: Event)
    requires Coupled(w) && Enabled(w, e)
    ensures D.Legal(w.delivery, DeliveryView(w, e)) && D.Run(w.delivery, DeliveryView(w, e)) == Apply(w, e).delivery
  {
    match e
    case DeliveryStep(d) => D.OneStep(w.delivery, d);
    case Crash => D.OneStep(w.delivery, D.Crash);
    case Start(readable, persisted) => D.OneStep(w.delivery, D.Start(readable, persisted));
    case ListingStep(l) =>
      ListingStepFits(w, l);
      if w.delivery.memory.Some? && w.delivery.pc.Idle? {
        D.OneStep(w.delivery, D.OtherProtocol(Apply(w, e).delivery.memory.value));
      }
    case PermissionStep(op, persisted) =>
      PermissionStepFits(w, op, persisted);
      D.OneStep(w.delivery, D.OtherProtocol(Apply(w, e).delivery.memory.value));
  }

  lemma ListingSees(w: World, e: Event)
    requires Coupled(w) && Enabled(w, e)
    ensures L.Legal(w.listing, ListingView(w, e)) && L.Run(w.listing, ListingView(w, e)) == Apply(w, e).listing
  {
    match e
    case ListingStep(l) => ListingOne(w.listing, l);
    case Crash => ListingOne(w.listing, L.Crash);
    case Start(readable, persisted) => ListingOne(w.listing, L.Start(readable, persisted));
    case DeliveryStep(d) =>
      DeliveryStepFits(w, d);
      if w.listing.memory.Some? {
        ListingOne(w.listing, L.OtherProtocol(Apply(w, e).listing.memory.value));
      }
    case PermissionStep(op, persisted) =>
      PermissionStepFits(w, op, persisted);
      ListingOne(w.listing, L.OtherProtocol(Apply(w, e).listing.memory.value));
  }

  lemma StepKeepsCoupled(w: World, e: Event)
    requires Coupled(w) && Enabled(w, e)
    ensures Coupled(Apply(w, e))
  {
    match e
    case DeliveryStep(d) => DeliveryStepFits(w, d);
    case ListingStep(l) => ListingStepFits(w, l);
    case PermissionStep(op, persisted) => PermissionStepFits(w, op, persisted);
    case Crash =>
    case Start(_, _) =>
  }

  // ---------------------------------------------------------------- main results

  /** Every shared run is a legal run of each protocol, and ends where that one ends. */
  lemma {:induction false} RunFits(w: World, es: seq<Event>)
    requires Coupled(w) && Legal(w, es)
    ensures Coupled(Run(w, es))
    ensures D.Legal(w.delivery, DeliveryRun(w, es)) && D.Run(w.delivery, DeliveryRun(w, es)) == Run(w, es).delivery
    ensures L.Legal(w.listing, ListingRun(w, es)) && L.Run(w.listing, ListingRun(w, es)) == Run(w, es).listing
    decreases |es|
  {
    if es != [] {
      var next := Apply(w, es[0]);
      StepKeepsCoupled(w, es[0]);
      DeliverySees(w, es[0]);
      ListingSees(w, es[0]);
      RunFits(next, es[1..]);
      D.RunConcat(w.delivery, DeliveryView(w, es[0]), DeliveryRun(next, es[1..]));
      L.RunConcat(w.listing, ListingView(w, es[0]), ListingRun(next, es[1..]));
    }
  }

  /**
   So with sales, recovery and permission jobs on the same journal a delivery is still handed
   out at most once.
   */
  lemma DeliveriesStayOnce(dinoOf: bytes -> nat, printOf: bytes -> string, alive: set<nat>, es: seq<Event>, key: string)
    requires Legal(FirstStart(dinoOf, printOf, alive), es)
    ensures var h := Run(FirstStart(dinoOf, printOf, alive), es).delivery.hist;
            && D.Count(h.episodes, key) <= 1
            && (D.Count(h.handed, key) > 0 ==> key in h.giver && h.handed[key] <= h.giver[key].units)
  {
    var first := FirstStart(dinoOf, printOf, alive);
    RunFits(first, es);
    D.AtMostOnce(DeliveryRun(first, es), key);
  }

  /** And with deliveries and permission jobs on it a taken dino still has its payload on disk. */
  lemma SalesStillConserve(dinoOf: bytes -> nat, printOf: bytes -> string, alive: set<nat>, es: seq<Event>, lock: string)
    requires Legal(FirstStart(dinoOf, printOf, alive), es)
    requires FreshLocks(FirstStart(dinoOf, printOf, alive), es)
    ensures var w := Run(FirstStart(dinoOf, printOf, alive), es).listing;
            && (lock in w.hist.taken ==>
                  L.Secured(w, lock) && L.RecordedDino(w, lock) == w.hist.taken[lock] && w.hist.taken[lock] !in w.alive)
            && (lock in w.hist.listed ==> L.Secured(w, lock) && L.RecordedDino(w, lock) !in w.alive)
  {
    var first := FirstStart(dinoOf, printOf, alive);
    RunFits(first, es);
    FreshInView(first, es);
    L.SaleConservesDinos(dinoOf, printOf, alive, ListingRun(first, es), lock);
  }

  // The backend never grants the same lock twice, and a listing payload is never empty text.
  ghost predicate FreshLocks(w: World, es: seq<Event>)
    requires Legal(w, es)
    decreases |es|
  {
    es == [] ||
    ((es[0].ListingStep? ==> L.FreshLock(w.listing, es[0].l)) && FreshLocks(Apply(w, es[0]), es[1..]))
  }

  lemma {:induction false} FreshInView(w: World, es: seq<Event>)
    requires Coupled(w) && Legal(w, es) && FreshLocks(w, es)
    ensures L.Legal(w.listing, ListingRun(w, es)) && L.FreshLocks(w.listing, ListingRun(w, es))
    decreases |es|
  {
    RunFits(w, es);
    if es != [] {
      StepKeepsCoupled(w, es[0]);
      ListingSees(w, es[0]);
      FreshInView(Apply(w, es[0]), es[1..]);
      if ListingView(w, es[0]) == [] {
        assert ListingRun(w, es) == ListingRun(Apply(w, es[0]), es[1..]);
      } else {
        var l := ListingView(w, es[0])[0];
        assert ListingRun(w, es) == [l] + ListingRun(Apply(w, es[0]), es[1..]);
        assert ListingRun(w, es)[0] == l && ListingRun(w, es)[1..] == ListingRun(Apply(w, es[0]), es[1..]);
      }
    }
  }
}
