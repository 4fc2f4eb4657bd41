/**
 The durable delivery journal (DeliveryJournal.cpp).

 Every delivery key goes absent -> prepared -> mutating -> completed, and back to absent by
 an abort. Each change is made in memory, written out, and rolled back in memory when the
 write fails. The file is replaced atomically, so a failed write leaves it as it was.
 */
module Journal {
  import opened Fingerprints
  import opened Options

  // Any other text in the file's "state" field is Foreign.
  datatype Phase = Prepared | Mutating | Completed | Foreign

  datatype Record = Record(deliveryType: string, deliveryId: string, fingerprint: string, payload: bytes, phase: Phase)

  type Deliveries = map<string, Record>

  datatype BeginResult = Started | AlreadyCompleted | UncertainPrepared | PayloadMismatch | PersistenceError

  datatype PendingRecord = PendingRecord(deliveryId: string, phase: Phase, payload: bytes)

  function MakeKey(deliveryType: string, deliveryId: string): string {
    deliveryType + ":" + deliveryId
  }

  // ---------------------------------------------------------------- atomic view of the operations

  /** The process's copy and the file; None is a file that does not exist yet. */
  datatype Store = Store(memory: Deliveries, disk: Option<Deliveries>) {

    predicate InSync() {
      disk == Some(memory)
    }

    // One durable write: memory and file take the new contents together, or neither does.
    function Commit(contents: Deliveries, persisted: bool): Store {
      if persisted then Store(contents, Some(contents)) else this
    }
  }

  function Fresh(deliveryType: string, deliveryId: string, payload: bytes): Record {
    Record(deliveryType, deliveryId, FingerprintOf(payload), payload, Prepared)
  }

  function BeginOutcome(s: Store, deliveryType: string, deliveryId: string, payload: bytes, persisted: bool): BeginResult {
    var key := MakeKey(deliveryType, deliveryId);
    if key in s.memory then
      if s.memory[key].fingerprint != FingerprintOf(payload) then PayloadMismatch
      else if s.memory[key].phase == Completed then AlreadyCompleted
      else UncertainPrepared
    else if persisted then Started
    else PersistenceError
  }

  function AfterBegin(s: Store, deliveryType: string, deliveryId: string, payload: bytes, persisted: bool): Store {
    if BeginOutcome(s, deliveryType, deliveryId, payload, persisted) == Started
    then s.Commit(s.memory[MakeKey(deliveryType, deliveryId) := Fresh(deliveryType, deliveryId, payload)], true)
    else s
  }

  predicate MarkAllowed(s: Store, key: string) {
    key in s.memory && s.memory[key].phase == Prepared
  }

  function AfterMark(s: Store, key: string, persisted: bool): Store {
    if MarkAllowed(s, key) then s.Commit(s.memory[key := s.memory[key].(phase := Mutating)], persisted) else s
  }

  function AfterComplete(s: Store, key: string, persisted: bool): Store {
    if key in s.memory then s.Commit(s.memory[key := s.memory[key].(phase := Completed)], persisted) else s
  }

  predicate AbortOutcome(s: Store, key: string, persisted: bool) {
    key !in s.memory || (s.memory[key].phase != Completed && persisted)
  }

  function AfterAbort(s: Store, key: string, persisted: bool): Store {
    if key in s.memory && s.memory[key].phase != Completed then s.Commit(s.memory - {key}, persisted) else s
  }

  // ---------------------------------------------------------------- the class

  /**
   The in-place journal. `disk` is the file; a write either replaces it or leaves it alone, and
   `failures` counts the writes that did not happen.
   */
  class DeliveryJournal {
    var deliveries: Deliveries
    var disk: Option<Deliveries>
    ghost var failures: nat

    ghost function Snapshot(): Store
      reads this
    {
      Store(deliveries, disk)
    }

    constructor (file: Option<Deliveries>)
      ensures deliveries == map[] && disk == file && failures == 0
    {
      deliveries := map[];
      disk := file;
      failures := 0;
    }

    method PersistLocked() returns (ok: bool)
      modifies this`disk, this`failures
      ensures disk == if ok then Some(deliveries) else old(disk)
      ensures failures == old(failures) + if ok then 0 else 1
    {
      ok := *;
      if ok {
        disk := Some(deliveries);
      } else {
        failures := failures + 1;
      }
    }

    /** `readable` is whether the existing file opens and parses as a journal. */
    method Load(readable: bool) returns (ok: bool)
      modifies this
      ensures old(disk).Some? ==> ok == readable && disk == old(disk) && (ok ==> deliveries == old(disk).value)
      ensures old(disk).None? ==> deliveries == old(deliveries) && disk == if ok then Some(deliveries) else None
      ensures ok ==> Snapshot().InSync()
      ensures failures == old(failures) + if old(disk).None? && !ok then 1 else 0
    {
      if disk.None? {
        ok := PersistLocked();
        return;
      }
      ok := readable;
      if ok {
        deliveries := disk.value;
      } else {
        // Parsing may have replaced some of it before it failed.
        deliveries := *;
      }
    }

    method Begin(deliveryType: string, deliveryId: string, payload: bytes) returns (result: BeginResult, ghost persisted: bool)
      modifies this
      ensures result == BeginOutcome(old(Snapshot()), deliveryType, deliveryId, payload, persisted)
      ensures Snapshot() == AfterBegin(old(Snapshot()), deliveryType, deliveryId, payload, persisted)
      ensures failures == old(failures) + if result == PersistenceError then 1 else 0
    {
      persisted := false;
      var key := MakeKey(deliveryType, deliveryId);
      var fingerprint := Fingerprint(payload);
      if key in deliveries {
        var existing := deliveries[key];
        if existing.fingerprint != fingerprint {
          return PayloadMismatch, persisted;
        }
        if existing.phase == Completed {
          return AlreadyCompleted, persisted;
        }
        return UncertainPrepared, persisted;
      }
      var ok := AddLocked(key, Record(deliveryType, deliveryId, fingerprint, payload, Prepared));
      return if ok then Started else PersistenceError, ok;
    }

    // The end of Begin: adds a record and writes it out, or takes it back.
    method AddLocked(key: string, record: Record) returns (ok: bool)
      requires key !in deliveries
      modifies this
      ensures Snapshot() == old(Snapshot()).Commit(old(deliveries)[key := record], ok)
      ensures failures == old(failures) + if ok then 0 else 1
    {
      ghost var before := deliveries;
      deliveries := deliveries[key := record];
      ok := PersistLocked();
      if !ok {
        deliveries := deliveries - {key};
        assert deliveries == before;
      }
    }

    method MarkMutating(deliveryType: string, deliveryId: string) returns (ok: bool, ghost persisted: bool)
      modifies this
      ensures ok == (MarkAllowed(old(Snapshot()), MakeKey(deliveryType, deliveryId)) && persisted)
      ensures Snapshot() == AfterMark(old(Snapshot()), MakeKey(deliveryType, deliveryId), persisted)
      ensures failures == old(failures) + if MarkAllowed(old(Snapshot()), MakeKey(deliveryType, deliveryId)) && !ok then 1 else 0
    {
      persisted := false;
      var key := MakeKey(deliveryType, deliveryId);
      if key !in deliveries || deliveries[key].phase != Prepared {
        return false, persisted;
      }
      ghost var before := deliveries;
      var previous := deliveries[key];
      deliveries := deliveries[key := previous.(phase := Mutating)];
      ok := PersistLocked();
      persisted := ok;
      if !ok {
        deliveries := deliveries[key := previous];
        assert deliveries == before;
      }
    }

    method Complete(deliveryType: string, deliveryId: string) returns (ok: bool, ghost persisted: bool)
      modifies this
      ensures ok == (MakeKey(deliveryType, deliveryId) in old(deliveries) && persisted)
      ensures Snapshot() == AfterComplete(old(Snapshot()), MakeKey(deliveryType, deliveryId), persisted)
      ensures failures == old(failures) + if MakeKey(deliveryType, deliveryId) in old(deliveries) && !ok then 1 else 0
    {
      persisted := false;
      var key := MakeKey(deliveryType, deliveryId);
      if key !in deliveries {
        return false, persisted;
      }
      ghost var before := deliveries;
      var previous := deliveries[key];
      deliveries := deliveries[key := previous.(phase := Completed)];
      ok := PersistLocked();
      persisted := ok;
      if !ok {
        deliveries := deliveries[key := previous];
        assert deliveries == before;
      }
    }

    method Abort(deliveryType: string, deliveryId: string) returns (ok: bool, ghost persisted: bool)
      modifies this
      ensures ok == AbortOutcome(old(Snapshot()), MakeKey(deliveryType, deliveryId), persisted)
      ensures Snapshot() == AfterAbort(old(Snapshot()), MakeKey(deliveryType, deliveryId), persisted)
      ensures failures == old(failures) + if AbortOutcome(old(Snapshot()), MakeKey(deliveryType, deliveryId), true) && !ok then 1 else 0
    {
      persisted := false;
      var key := MakeKey(deliveryType, deliveryId);
      if key !in deliveries {
        return true, persisted;
      }
      if deliveries[key].phase == Completed {
        return false, persisted;
      }
      ghost var before := deliveries;
      var previous := deliveries[key];
      deliveries := deliveries - {key};
      ok := PersistLocked();
      persisted := ok;
      if !ok {
        deliveries := deliveries[key := previous];
        assert deliveries == before;
      }
    }

    /** Every unfinished record of one type, each exactly once. */
    method Pending(deliveryType: string) returns (records: seq<PendingRecord>, ghost keys: seq<string>)
      ensures |keys| == |records|
      ensures forall i, j :: 0 <= i < j < |keys| ==> keys[i] != keys[j]
      ensures forall k :: k in keys <==> k in deliveries && IsPending(deliveries[k], deliveryType)
      ensures forall i :: 0 <= i < |keys| ==> records[i] == AsPending(deliveries[keys[i]])
      ensures forall r :: r in records <==> exists k :: k in deliveries && IsPending(deliveries[k], deliveryType) && r == AsPending(deliveries[k])
      ensures |records| == |PendingKeys(deliveries, deliveryType)|
    {
      records, keys := [], [];
      var rest := deliveries.Keys;
      while rest != {}
        invariant rest <= deliveries.Keys && |keys| == |records|
        invariant forall i, j :: 0 <= i < j < |keys| ==> keys[i] != keys[j]
        invariant forall k :: k in keys <==> k in deliveries && k !in rest && IsPending(deliveries[k], deliveryType)
        invariant forall i :: 0 <= i < |keys| ==> records[i] == AsPending(deliveries[keys[i]])
        decreases |rest|
      {
        var key :| key in rest;
        rest := rest - {key};
        var record := deliveries[key];
        if record.deliveryType != deliveryType || record.phase == Completed {
          continue;
        }
        records := records + [PendingRecord(record.deliveryId, record.phase, record.payload)];
        keys := keys + [key];
      }
      assert forall k :: k in keys <==> k in PendingKeys(deliveries, deliveryType);
      DistinctSize(keys, PendingKeys(deliveries, deliveryType));
    }
  }

  predicate IsPending(record: Record, deliveryType: string) {
    record.deliveryType == deliveryType && record.phase != Completed
  }

  function PendingKeys(deliveries: Deliveries, deliveryType: string): set<string> {
    set k | k in deliveries && IsPending(deliveries[k], deliveryType)
  }

  lemma {:induction false} DistinctSize(keys: seq<string>, members: set<string>)
    requires forall i, j :: 0 <= i < j < |keys| ==> keys[i] != keys[j]
    requires forall k :: k in keys <==> k in members
    ensures |keys| == |members|
    decreases |keys|
  {
    if keys == [] {
      assert members == {};
    } else {
      var last := keys[|keys| - 1];
      var rest := keys[..|keys| - 1];
      forall k
        ensures k in rest <==> k in members - {last}
      {
        assert k in keys <==> k in rest || k == last;
        assert last !in rest;
      }
      assert last in keys;
      DistinctSize(rest, members - {last});
    }
  }

  function AsPending(record: Record): PendingRecord {
    PendingRecord(record.deliveryId, record.phase, record.payload)
  }

  // ---------------------------------------------------------------- laws

  datatype Operation =
    | OpBegin(deliveryType: string, deliveryId: string, payload: bytes)
    | OpMark(key: string)
    | OpComplete(key: string)
    | OpAbort(key: string)

  function Perform(s: Store, op: Operation, persisted: bool): Store {
    match op
    case OpBegin(t, id, p) => AfterBegin(s, t, id, p, persisted)
    case OpMark(k) => AfterMark(s, k, persisted)
    case OpComplete(k) => AfterComplete(s, k, persisted)
    case OpAbort(k) => AfterAbort(s, k, persisted)
  }

  function KeyOf(op: Operation): string {
    match op
    case OpBegin(t, id, _) => MakeKey(t, id)
    case OpMark(k) => k
    case OpComplete(k) => k
    case OpAbort(k) => k
  }

  function PerformAll(s: Store, ops: seq<(Operation, bool)>): Store
    decreases |ops|
  {
    if ops == [] then s else PerformAll(Perform(s, ops[0].0, ops[0].1), ops[1..])
  }

  ghost predicate Keeps(before: Deliveries, after: Deliveries, key: string) {
    (key in after <==> key in before) && (key in before ==> after[key] == before[key])
  }

  ghost predicate OthersKept(before: Deliveries, after: Deliveries, key: string) {
    forall k :: k != key ==> Keeps(before, after, k)
  }

  lemma OthersKeptTransitive(a: Deliveries, b: Deliveries, c: Deliveries, key: string)
    requires OthersKept(a, b, key) && OthersKept(b, c, key)
    ensures OthersKept(a, c, key)
  {
    forall k | k != key
      ensures Keeps(a, c, k)
    {
      assert Keeps(a, b, k) && Keeps(b, c, k);
    }
  }

  /**
   After any run of operations, whatever writing did each time, the file still equals the
   process's copy; a completed record is still there with its payload; and a key no operation
   named is as it was.
   */
  lemma {:induction false} JournalRun(s: Store, ops: seq<(Operation, bool)>)
    requires s.InSync()
    ensures PerformAll(s, ops).InSync()
    ensures forall k :: k in s.memory && s.memory[k].phase == Completed ==>
                          k in PerformAll(s, ops).memory && PerformAll(s, ops).memory[k] == s.memory[k]
    ensures forall k :: (forall i :: 0 <= i < |ops| ==> KeyOf(ops[i].0) != k) ==> Keeps(s.memory, PerformAll(s, ops).memory, k)
    decreases |ops|
  {
    if ops != [] {
      var next := Perform(s, ops[0].0, ops[0].1);
      JournalRun(next, ops[1..]);
      forall k | forall i :: 0 <= i < |ops| ==> KeyOf(ops[i].0) != k
        ensures Keeps(s.memory, PerformAll(s, ops).memory, k)
      {
        assert KeyOf(ops[0].0) != k;
        assert forall i :: 0 <= i < |ops[1..]| ==> ops[1..][i] == ops[i + 1];
        assert Keeps(next.memory, PerformAll(s, ops).memory, k);
      }
    }
  }

  /** Types without a colon and their ids are recovered from the key, so keys do not clash. */
  lemma KeysDoNotClash(t1: string, id1: string, t2: string, id2: string)
    requires ':' !in t1 && ':' !in t2
    requires MakeKey(t1, id1) == MakeKey(t2, id2)
    ensures t1 == t2 && id1 == id2
  {
    var key := MakeKey(t1, id1);
    assert key[|t1|] == ':' && key[|t2|] == ':';
    assert forall i :: 0 <= i < |t1| ==> key[i] == t1[i];
    assert forall i :: 0 <= i < |t2| ==> key[i] == t2[i];
    assert |t1| == |t2|;
    assert t1 == key[..|t1|] && t2 == key[..|t2|];
    assert id1 == key[|t1| + 1..] && id2 == key[|t2| + 1..];
  }

  /** A delivery id whose stored payload differs in one byte is never started or acknowledged. */
  lemma ChangedPayloadIsCaught(s: Store, t: string, id: string, pre: bytes, x: byte, y: byte, post: bytes, persisted: bool)
    requires x != y
    requires MakeKey(t, id) in s.memory
    requires s.memory[MakeKey(t, id)].fingerprint == FingerprintOf(pre + [x] + post)
    ensures BeginOutcome(s, t, id, pre + [y] + post, persisted) == PayloadMismatch
    ensures AfterBegin(s, t, id, pre + [y] + post, persisted) == s
  {
    OneByteChangesFingerprint(pre, x, y, post);
  }
}
