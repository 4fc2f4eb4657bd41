/**
 Planning which products to add (plan.ts and lib.ts of the dino catalog, plan.ts of the item
 catalog): the bookkeeping that keeps two rows from selling the same thing.

 A dino is identified by package and displayed level, an item by package, quantity and
 quality. Classification, names and prices are inputs: a candidate carries the ladder, or the
 offer, it was given, or None when it is not sellable.
 */
module CatalogPlan {
  import opened Numbers
  import opened Options

  datatype PlanRow<I> = PlanRow(identity: I, externalKey: string, created: bool)

  ghost predicate Distinct<I>(rows: seq<PlanRow<I>>) {
    forall i, j :: 0 <= i < j < |rows| ==> rows[i].identity != rows[j].identity
  }

  function Identities<I>(rows: seq<PlanRow<I>>): set<I> {
    set r | r in rows :: r.identity
  }

  lemma IdentitiesGrow<I>(rows: seq<PlanRow<I>>, more: seq<PlanRow<I>>)
    ensures Identities(rows + more) == Identities(rows) + Identities(more)
  {
    assert forall r :: r in rows + more <==> r in rows || r in more;
  }

  lemma DistinctGrows<I>(rows: seq<PlanRow<I>>, row: PlanRow<I>)
    requires Distinct(rows) && row.identity !in Identities(rows)
    ensures Distinct(rows + [row]) && Identities(rows + [row]) == Identities(rows) + {row.identity}
  {
    forall i | 0 <= i < |rows|
      ensures rows[i].identity != row.identity
    {
      assert rows[i] in rows;
    }
    IdentitiesGrow(rows, [row]);
  }

  /**
   What is on sale by identity, with the external key of the row that owns it, and the rows
   planned so far. An owner is looked for by its key, and an empty key counts as no owner.
   */
  class Registry<I(==)> {
    var sellable: map<I, string>
    var newRows: seq<PlanRow<I>>
    // The identities that kept legacy rows registered, and those a row with a key of its own did.
    ghost var kept: set<I>
    ghost var named: set<I>

    predicate HasOwner(identity: I)
      reads this
    {
      identity in sellable && sellable[identity] != ""
    }

    ghost predicate Valid()
      reads this
    {
      && Distinct(newRows)
      && named <= kept && named !! Identities(newRows)
      && sellable.Keys == kept + Identities(newRows)
      && (forall r :: r in newRows ==> r.identity in sellable && sellable[r.identity] == r.externalKey)
      && (forall id :: id in sellable && id !in Identities(newRows) ==> (sellable[id] != "" <==> id in named))
    }

    // No new row has an identity that a kept row registered.
    ghost predicate Apart()
      reads this
    {
      kept !! Identities(newRows)
    }

    // Every new row has an external key that is not empty.
    ghost predicate Keyed()
      reads this
    {
      forall r :: r in newRows ==> r.externalKey != ""
    }

    constructor ()
      ensures Valid() && sellable == map[] && newRows == [] && kept == {} && named == {}
    {
      sellable, newRows, kept, named := map[], [], {}, {};
    }

    // A kept legacy row; a second one for the same identity is only reported, unless the first has no key.
    method KeepLegacy(identity: I, externalKey: string) returns (duplicateOf: Option<string>)
      requires Valid() && newRows == []
      modifies this
      ensures Valid() && newRows == [] && kept == old(kept) + {identity}
      ensures named == old(named) + if externalKey != "" then {identity} else {}
      ensures duplicateOf == if old(HasOwner(identity)) then Some(old(sellable)[identity]) else None
      ensures sellable == if old(HasOwner(identity)) then old(sellable) else old(sellable)[identity := externalKey]
    {
      kept := kept + {identity};
      named := named + if externalKey != "" then {identity} else {};
      if HasOwner(identity) {
        return Some(sellable[identity]);
      }
      sellable := sellable[identity := externalKey];
      return None;
    }

    method AddRow(row: PlanRow<I>)
      requires Valid() && row.identity !in named && row.identity !in Identities(newRows)
      modifies this
      ensures Valid() && kept == old(kept) && named == old(named)
      ensures newRows == old(newRows) + [row] && sellable == old(sellable)[row.identity := row.externalKey]
      ensures Identities(newRows) == old(Identities(newRows)) + {row.identity}
      ensures old(Apart()) && row.identity !in old(sellable) ==> Apart()
    {
      DistinctGrows(newRows, row);
      sellable := sellable[row.identity := row.externalKey];
      newRows := newRows + [row];
    }
  }

  // ---------------------------------------------------------------- level ladders

  predicate Ascending(levels: seq<int>) {
    forall i, j :: 0 <= i < j < |levels| ==> levels[i] < levels[j]
  }

  predicate Descending(levels: seq<int>) {
    forall i, j :: 0 <= i < j < |levels| ==> levels[i] > levels[j]
  }

  predicate NoRepeats(levels: seq<int>) {
    forall i, j :: 0 <= i < j < |levels| ==> levels[i] != levels[j]
  }

  function Insert(level: int, levels: seq<int>): (r: seq<int>)
    ensures forall x :: x in r <==> x == level || x in levels
  {
    if levels == [] || level < levels[0] then [level] + levels
    else
      assert levels == [levels[0]] + levels[1..];
      [levels[0]] + Insert(level, levels[1..])
  }

  // The order that sort((a, b) => a - b) leaves.
  function Sort(levels: seq<int>): (r: seq<int>)
    ensures forall x :: x in r <==> x in levels
  {
    if levels == [] then []
    else
      assert levels == [levels[0]] + levels[1..];
      Insert(levels[0], Sort(levels[1..]))
  }

  lemma {:induction false} InsertAscends(level: int, levels: seq<int>)
    requires Ascending(levels) && level !in levels
    ensures Ascending(Insert(level, levels))
    decreases |levels|
  {
    if levels != [] && level >= levels[0] {
      assert levels[0] in levels;
      assert forall i :: 0 <= i < |levels[1..]| ==> levels[1..][i] == levels[i + 1];
      InsertAscends(level, levels[1..]);
      var rest := Insert(level, levels[1..]);
      assert forall i :: 0 <= i < |rest| ==> rest[i] in rest;
    }
  }

  lemma {:induction false} SortAscends(levels: seq<int>)
    requires NoRepeats(levels)
    ensures Ascending(Sort(levels))
    decreases |levels|
  {
    if levels != [] {
      assert forall i :: 0 <= i < |levels[1..]| ==> levels[1..][i] == levels[i + 1];
      SortAscends(levels[1..]);
      InsertAscends(levels[0], Sort(levels[1..]));
    }
  }

  datatype LegacyLevel = LegacyLevel(key: string, level: int)

  ghost predicate LevelsOf(ladder: seq<int>, rows: seq<LegacyLevel>, key: string) {
    && NoRepeats(ladder)
    && forall level :: level in ladder <==> LegacyLevel(key, level) in rows
  }

  ghost predicate HasRow(rows: seq<LegacyLevel>, key: string) {
    exists level :: LegacyLevel(key, level) in rows
  }

  ghost predicate Collected(ladders: map<string, seq<int>>, rows: seq<LegacyLevel>) {
    && (forall key :: key in ladders <==> HasRow(rows, key))
    && forall key :: key in ladders ==> ladders[key] != [] && LevelsOf(ladders[key], rows, key)
  }

  function WithLevel(ladder: seq<int>, level: int): seq<int> {
    if level in ladder then ladder else ladder + [level]
  }

  lemma LevelAdded(ladder: seq<int>, rows: seq<LegacyLevel>, row: LegacyLevel)
    requires LevelsOf(ladder, rows, row.key)
    ensures LevelsOf(WithLevel(ladder, row.level), rows + [row], row.key)
  {
    var r := WithLevel(ladder, row.level);
    assert forall level :: level in r <==> level in ladder || level == row.level;
  }

  lemma RowAdded(rows: seq<LegacyLevel>, row: LegacyLevel, key: string)
    ensures HasRow(rows + [row], key) <==> HasRow(rows, key) || key == row.key
  {
    assert row in rows + [row] && row == LegacyLevel(row.key, row.level);
    if HasRow(rows, key) {
      var level :| LegacyLevel(key, level) in rows;
      assert LegacyLevel(key, level) in rows + [row];
    }
  }

  lemma OtherLadderStays(ladder: seq<int>, rows: seq<LegacyLevel>, row: LegacyLevel, key: string)
    requires LevelsOf(ladder, rows, key) && key != row.key
    ensures LevelsOf(ladder, rows + [row], key)
  {
    assert forall level :: LegacyLevel(key, level) in rows + [row] <==> LegacyLevel(key, level) in rows;
  }

  lemma CollectedMore(ladders: map<string, seq<int>>, rows: seq<LegacyLevel>, row: LegacyLevel)
    requires Collected(ladders, rows)
    ensures Collected(ladders[row.key := WithLevel(if row.key in ladders then ladders[row.key] else [], row.level)], rows + [row])
  {
    var ladder := if row.key in ladders then ladders[row.key] else [];
    assert row.key !in ladders ==> forall level :: LegacyLevel(row.key, level) !in rows;
    LevelAdded(ladder, rows, row);
    forall key
      ensures HasRow(rows + [row], key) <==> HasRow(rows, key) || key == row.key
    {
      RowAdded(rows, row, key);
    }
    forall key | key in ladders && key != row.key
      ensures LevelsOf(ladders[key], rows + [row], key)
    {
      OtherLadderStays(ladders[key], rows, row, key);
    }
  }

  // One ladder for each species (or package): each level once, however often it is sold.
  method CollectLevels(rows: seq<LegacyLevel>) returns (ladders: map<string, seq<int>>)
    ensures Collected(ladders, rows)
  {
    ladders := map[];
    for i := 0 to |rows|
      invariant Collected(ladders, rows[..i])
    {
      assert rows[..i + 1] == rows[..i] + [rows[i]];
      ladders := CollectLevel(ladders, rows[..i], rows[i]);
    }
    assert rows[..|rows|] == rows;
  }

  method CollectLevel(ladders: map<string, seq<int>>, ghost rows: seq<LegacyLevel>, row: LegacyLevel)
    returns (next: map<string, seq<int>>)
    requires Collected(ladders, rows)
    ensures Collected(next, rows + [row])
  {
    var ladder := if row.key in ladders then ladders[row.key] else [];
    CollectedMore(ladders, rows, row);
    ghost var wider := WithLevel(ladder, row.level);
    if row.level !in ladder {
      ladder := ladder + [row.level];
    }
    assert ladder == wider;
    next := ladders[row.key := ladder];
  }

  /** The ladders of the price model: ascending, with each level that is sold exactly once. */
  method BuildLadders(rows: seq<LegacyLevel>) returns (ladders: map<string, seq<int>>)
    ensures forall key :: key in ladders <==> HasRow(rows, key)
    ensures forall key :: key in ladders ==>
              ladders[key] != [] && Ascending(ladders[key]) && forall level :: level in ladders[key] <==> LegacyLevel(key, level) in rows
  {
    var collected := CollectLevels(rows);
    forall key | key in collected
      ensures Ascending(Sort(collected[key])) && Sort(collected[key]) != []
    {
      SortAscends(collected[key]);
      assert collected[key][0] in Sort(collected[key]);
    }
    ladders := map key | key in collected :: Sort(collected[key]);
  }

  // A variant sells its top level only.
  function LadderFor(ladder: seq<int>, isVariant: bool): (r: seq<int>)
    requires ladder != [] && Ascending(ladder)
    ensures r != [] && Ascending(r) && forall x :: x in r ==> x in ladder
    ensures isVariant ==> |r| == 1 && forall x :: x in ladder ==> x <= r[0]
    ensures !isVariant ==> r == ladder
  {
    if isVariant then [ladder[|ladder| - 1]] else ladder
  }

  // ---------------------------------------------------------------- dinos

  datatype Slot = Slot(package: string, level: int)

  function LevelText(level: int): string {
    if level < 0 then "-" + Decimal(-level) else Decimal(level)
  }

  // The text a slot is looked up by.
  function SlotKey(s: Slot): string {
    s.package + "@" + LevelText(s.level)
  }

  function CreatedKey(s: Slot): string {
    "dino-catalog:" + SlotKey(s)
  }

  function SlotsOf(package: string, levels: seq<int>): set<Slot> {
    set level | level in levels :: Slot(package, level)
  }

  function Free(sellable: set<Slot>, package: string, ladder: seq<int>): (r: seq<int>)
    ensures forall x :: x in r <==> x in ladder && Slot(package, x) !in sellable
  {
    if ladder == [] then []
    else
      assert ladder == [ladder[0]] + ladder[1..];
      var rest := Free(sellable, package, ladder[1..]);
      if Slot(package, ladder[0]) in sellable then rest else [ladder[0]] + rest
  }

  lemma {:induction false} FreeAscends(sellable: set<Slot>, package: string, ladder: seq<int>)
    requires Ascending(ladder)
    ensures Ascending(Free(sellable, package, ladder))
    decreases |ladder|
  {
    if ladder != [] {
      assert forall i :: 0 <= i < |ladder[1..]| ==> ladder[1..][i] == ladder[i + 1];
      FreeAscends(sellable, package, ladder[1..]);
      var rest := Free(sellable, package, ladder[1..]);
      assert forall i :: 0 <= i < |rest| ==> rest[i] in rest && rest[i] in ladder[1..];
    }
  }

  function Reversed(levels: seq<int>): (r: seq<int>)
    ensures |r| == |levels| && forall i :: 0 <= i < |r| ==> r[i] == levels[|levels| - 1 - i]
    ensures forall x :: x in r <==> x in levels
  {
    if levels == [] then []
    else
      assert levels == levels[..|levels| - 1] + [levels[|levels| - 1]];
      [levels[|levels| - 1]] + Reversed(levels[..|levels| - 1])
  }

  // The row for the index-th level; a draft product carries the first.
  function RowAt(package: string, ordered: seq<int>, draftKey: Option<string>, index: nat): PlanRow<Slot>
    requires index < |ordered|
  {
    var slot := Slot(package, ordered[index]);
    if index == 0 && draftKey.Some? then PlanRow(slot, draftKey.value, false) else PlanRow(slot, CreatedKey(slot), true)
  }

  function RowsFor(package: string, ordered: seq<int>, draftKey: Option<string>): (rows: seq<PlanRow<Slot>>)
    ensures |rows| == |ordered|
  {
    seq(|ordered|, i requires 0 <= i < |ordered| => RowAt(package, ordered, draftKey, i))
  }

  lemma RowsGrow(package: string, ordered: seq<int>, draftKey: Option<string>, index: nat)
    requires index < |ordered|
    ensures RowsFor(package, ordered, draftKey)[..index + 1] ==
            RowsFor(package, ordered, draftKey)[..index] + [RowAt(package, ordered, draftKey, index)]
  {
  }

  lemma RowsDescend(package: string, ordered: seq<int>, draftKey: Option<string>)
    requires Descending(ordered)
    ensures var rows := RowsFor(package, ordered, draftKey);
            && (forall i, j :: 0 <= i < j < |rows| ==> rows[i].identity.level > rows[j].identity.level)
            && (forall i :: 0 <= i < |rows| ==> rows[i].identity.package == package && rows[i].identity.level in ordered)
            && (forall x :: x in ordered ==> exists i :: 0 <= i < |rows| && rows[i].identity == Slot(package, x))
            && (rows != [] && draftKey.Some? ==> rows[0].externalKey == draftKey.value && !rows[0].created)
            && (forall i :: 0 <= i < |rows| && (i > 0 || draftKey.None?) ==>
                  rows[i].created &&
                  rows[i].externalKey == "dino-catalog:" + (rows[i].identity.package + "@" + LevelText(rows[i].identity.level)))
  {
    var rows := RowsFor(package, ordered, draftKey);
    forall i | 0 <= i < |rows|
      ensures rows[i] == RowAt(package, ordered, draftKey, i)
    {
    }
    forall x | x in ordered
      ensures exists i :: 0 <= i < |rows| && rows[i].identity == Slot(package, x)
    {
      var i :| 0 <= i < |ordered| && ordered[i] == x;
      assert rows[i].identity == Slot(package, x);
    }
  }

  /**
   The rows of one offer: one for each level of the ladder that is not on sale, from the highest
   down. A draft product carries the highest; every other row is created, under its own key.
   */
  lemma OfferInOrder(package: string, sellable: set<Slot>, ladder: seq<int>, draftKey: Option<string>)
    requires Ascending(ladder)
    ensures var rows := RowsFor(package, Reversed(Free(sellable, package, ladder)), draftKey);
            && (forall i, j :: 0 <= i < j < |rows| ==> rows[i].identity.level > rows[j].identity.level)
            && (forall i :: 0 <= i < |rows| ==>
                  rows[i].identity.package == package && rows[i].identity.level in ladder && rows[i].identity !in sellable)
            && (forall x :: x in ladder && Slot(package, x) !in sellable ==> exists i :: 0 <= i < |rows| && rows[i].identity == Slot(package, x))
            && (rows != [] && draftKey.Some? ==> rows[0].externalKey == draftKey.value && !rows[0].created)
            && (forall i :: 0 <= i < |rows| && (i > 0 || draftKey.None?) ==>
                  rows[i].created &&
                  rows[i].externalKey == "dino-catalog:" + (rows[i].identity.package + "@" + LevelText(rows[i].identity.level)))
  {
    var ordered := Reversed(Free(sellable, package, ladder));
    FreeAscends(sellable, package, ladder);
    RowsDescend(package, ordered, draftKey);
    forall x
      ensures x in ordered <==> x in ladder && Slot(package, x) !in sellable
    {
    }
  }

  method PlanOffers(plan: Registry<Slot>, package: string, ladder: seq<int>, draftKey: Option<string>) returns (duplicateOf: Option<string>)
    requires plan.Valid() && plan.Apart() && ladder != [] && Ascending(ladder)
    modifies plan
    ensures plan.Valid() && plan.Apart() && plan.kept == old(plan.kept)
    ensures duplicateOf.Some? <==> SlotsOf(package, ladder) <= old(plan.sellable.Keys)
    ensures duplicateOf.Some? ==> duplicateOf.value == old(plan.sellable)[Slot(package, ladder[0])]
    ensures plan.newRows == old(plan.newRows) + RowsFor(package, Reversed(Free(old(plan.sellable.Keys), package, ladder)), draftKey)
    ensures plan.sellable.Keys == old(plan.sellable.Keys) + SlotsOf(package, ladder)
  {
    var free := Free(plan.sellable.Keys, package, ladder);
    FreeAscends(plan.sellable.Keys, package, ladder);
    if |free| == 0 {
      assert forall level :: level in ladder ==> Slot(package, level) in plan.sellable by {
        assert forall level :: level !in free;
      }
      assert Slot(package, ladder[0]) in plan.sellable.Keys by {
        assert ladder[0] in ladder;
      }
      return Some(plan.sellable[Slot(package, ladder[0])]);
    }
    // Descending, as sort((a, b) => b.displayLevel - a.displayLevel) leaves an ascending list.
    var ordered := Reversed(free);
    assert Descending(ordered);
    AddRows(plan, package, ordered, draftKey);
    FreeAndTaken(old(plan.sellable.Keys), package, ladder);
    assert free[0] in free;
    duplicateOf := None;
  }

  lemma FreeAndTaken(sellable: set<Slot>, package: string, ladder: seq<int>)
    ensures sellable + SlotsOf(package, Reversed(Free(sellable, package, ladder))) == sellable + SlotsOf(package, ladder)
  {
  }

  method AddRows(plan: Registry<Slot>, package: string, ordered: seq<int>, draftKey: Option<string>)
    requires plan.Valid() && plan.Apart() && Descending(ordered)
    requires forall x :: x in ordered ==> Slot(package, x) !in plan.sellable
    modifies plan
    ensures plan.Valid() && plan.Apart() && plan.kept == old(plan.kept)
    ensures plan.newRows == old(plan.newRows) + RowsFor(package, ordered, draftKey)
    ensures plan.sellable.Keys == old(plan.sellable.Keys) + SlotsOf(package, ordered)
  {
    ghost var all := RowsFor(package, ordered, draftKey);
    for index := 0 to |ordered|
      invariant plan.Valid() && plan.Apart() && plan.kept == old(plan.kept)
      invariant plan.newRows == old(plan.newRows) + all[..index]
      invariant plan.sellable.Keys == old(plan.sellable.Keys) + SlotsOf(package, ordered[..index])
    {
      StillFree(package, ordered, index, old(plan.sellable.Keys));
      plan.AddRow(RowAt(package, ordered, draftKey, index));
      RowsGrow(package, ordered, draftKey, index);
      SlotsGrow(package, ordered, index);
    }
    assert ordered[..|ordered|] == ordered && all[..|all|] == all;
  }

  lemma StillFree(package: string, ordered: seq<int>, index: nat, sellable: set<Slot>)
    requires index < |ordered| && Descending(ordered)
    requires forall x :: x in ordered ==> Slot(package, x) !in sellable
    ensures Slot(package, ordered[index]) !in sellable + SlotsOf(package, ordered[..index])
  {
    assert ordered[index] in ordered;
  }

  lemma SlotsGrow(package: string, ordered: seq<int>, index: nat)
    requires index < |ordered|
    ensures SlotsOf(package, ordered[..index + 1]) == SlotsOf(package, ordered[..index]) + {Slot(package, ordered[index])}
  {
    assert ordered[..index + 1] == ordered[..index] + [ordered[index]];
  }

  // ---------------------------------------------------------------- keys

  predicate Plain(s: string) {
    forall i :: 0 <= i < |s| ==> s[i] != '@'
  }

  lemma LevelTextIsPlain(a: int)
    ensures Plain(LevelText(a)) && LevelText(a) != "" && (LevelText(a)[0] == '-' <==> a < 0)
  {
    DecimalDigits(if a < 0 then -a else a);
  }

  lemma MinusDrops(s: string)
    ensures ("-" + s)[1..] == s
  {
  }

  lemma NegativeTextInjective(a: nat, b: nat)
    requires "-" + Decimal(a) == "-" + Decimal(b)
    ensures a == b
  {
    MinusDrops(Decimal(a));
    MinusDrops(Decimal(b));
    DecimalInjective(a, b);
  }

  lemma LevelTextInjective(a: int, b: int)
    requires LevelText(a) == LevelText(b)
    ensures a == b
  {
    LevelTextIsPlain(a);
    LevelTextIsPlain(b);
    if a < 0 {
      NegativeTextInjective(-a, -b);
    } else {
      DecimalInjective(a, b);
    }
  }

  // The last '@' tells where the package ends.
  lemma KeySplits(p: string, t: string, q: string, u: string)
    requires Plain(t) && Plain(u) && p + "@" + t == q + "@" + u
    ensures p == q && t == u
  {
    AtIsLast(p, t, q, u);
    AtIsLast(q, u, p, t);
    var whole := p + "@" + t;
    assert whole[..|p|] == p && whole[..|q|] == q && whole[|p| + 1..] == t && whole[|q| + 1..] == u;
  }

  lemma AtIsLast(p: string, t: string, q: string, u: string)
    requires Plain(u) && p + "@" + t == q + "@" + u
    ensures |p| <= |q|
  {
    var whole := q + "@" + u;
    assert (p + "@" + t)[|p|] == '@';
    assert forall i :: |q| < i < |whole| ==> whole[i] == u[i - |q| - 1] != '@';
  }

  /** Slots are looked up by a text of their own. */
  lemma SlotKeyInjective(a: Slot, b: Slot)
    ensures SlotKey(a) == SlotKey(b) <==> a == b
    ensures CreatedKey(a) == CreatedKey(b) <==> a == b
  {
    LevelTextIsPlain(a.level);
    LevelTextIsPlain(b.level);
    if SlotKey(a) == SlotKey(b) {
      KeySplits(a.package, LevelText(a.level), b.package, LevelText(b.level));
      LevelTextInjective(a.level, b.level);
    }
    var prefix := "dino-catalog:";
    assert CreatedKey(a)[|prefix|..] == SlotKey(a) && CreatedKey(b)[|prefix|..] == SlotKey(b);
  }

  ghost predicate KeyedByIdentity(rows: seq<PlanRow<Slot>>) {
    forall r :: r in rows && r.created ==> r.externalKey == CreatedKey(r.identity)
  }

  /** No two created dino rows have one external key. */
  lemma CreatedDinosHaveOwnKeys(rows: seq<PlanRow<Slot>>, i: nat, j: nat)
    requires Distinct(rows) && KeyedByIdentity(rows) && i < j < |rows| && rows[i].created && rows[j].created
    ensures rows[i].externalKey != rows[j].externalKey
  {
    assert rows[i] in rows && rows[j] in rows;
    SlotKeyInjective(rows[i].identity, rows[j].identity);
  }

  // ---------------------------------------------------------------- the dino plan

  datatype DinoLegacy = DinoLegacy(slot: Slot, externalKey: string, kept: bool)

  // A draft or a wiki creature; the ladder is None when it is not sellable or has no price.
  datatype Candidate = Candidate(package: string, externalKey: string, ladder: Option<seq<int>>)

  predicate SoundLadders(candidates: seq<Candidate>) {
    forall c :: c in candidates && c.ladder.Some? ==> c.ladder.value != [] && Ascending(c.ladder.value)
  }

  function KeptSlots(legacy: seq<DinoLegacy>): set<Slot> {
    set l | l in legacy && l.kept :: l.slot
  }

  function LegacyPackages(legacy: seq<DinoLegacy>): set<string> {
    set l | l in legacy :: l.slot.package
  }

  function DraftPackages(drafts: seq<Candidate>): set<string> {
    set d | d in drafts :: d.package
  }

  predicate Wants(c: Candidate, taken: set<string>) {
    c.ladder.Some? && c.package !in taken
  }

  function OfferedSlots(candidates: seq<Candidate>, taken: set<string>): set<Slot> {
    set c, level | c in candidates && Wants(c, taken) && level in c.ladder.value :: Slot(c.package, level)
  }

  lemma OfferedMore(candidates: seq<Candidate>, n: nat, taken: set<string>)
    requires n < |candidates|
    ensures OfferedSlots(candidates[..n + 1], taken) ==
            OfferedSlots(candidates[..n], taken) +
            (if Wants(candidates[n], taken) then SlotsOf(candidates[n].package, candidates[n].ladder.value) else {})
  {
    assert candidates[..n + 1] == candidates[..n] + [candidates[n]];
    assert forall c :: c in candidates[..n + 1] <==> c in candidates[..n] || c == candidates[n];
  }

  /**
   The dino plan: the slots on sale are those of the kept legacy rows and the whole ladder of
   every sellable candidate whose package is not taken, each sold by one row. A package taken
   by any legacy row is not offered to a draft, nor one of any product to a wiki creature. A row
   is created under its own key, or carries a wanted draft of its package.
   */
  method BuildDinoPlan(legacy: seq<DinoLegacy>, drafts: seq<Candidate>, wiki: seq<Candidate>, catalogPackages: set<string>)
    returns (plan: Registry<Slot>)
    requires SoundLadders(drafts) && SoundLadders(wiki)
    ensures fresh(plan) && plan.Valid() && plan.Apart() && plan.kept == KeptSlots(legacy) && KeyedByIdentity(plan.newRows)
    ensures Distinct(plan.newRows) && forall r :: r in plan.newRows ==> r.identity !in KeptSlots(legacy)
    ensures CarryDrafts(plan.newRows, drafts, LegacyPackages(legacy))
    ensures var owned := LegacyPackages(legacy);
            plan.sellable.Keys == KeptSlots(legacy) + OfferedSlots(drafts, owned) +
                                  OfferedSlots(wiki, owned + DraftPackages(drafts) + catalogPackages)
  {
    plan := new Registry<Slot>();
    var owned := LegacyPackages(legacy);
    var seen := owned + DraftPackages(drafts) + catalogPackages;
    KeepAll(plan, legacy);
    PlanAll(plan, drafts, owned, true, drafts, owned);
    PlanAll(plan, wiki, seen, false, drafts, owned);
    assert forall r :: r in plan.newRows ==> r.identity in Identities(plan.newRows);
  }

  method KeepAll(plan: Registry<Slot>, legacy: seq<DinoLegacy>)
    requires plan.Valid() && plan.newRows == [] && plan.kept == {} && plan.sellable == map[]
    modifies plan
    ensures plan.Valid() && plan.newRows == [] && plan.kept == KeptSlots(legacy) == plan.sellable.Keys
  {
    for i := 0 to |legacy|
      invariant plan.Valid() && plan.newRows == [] && plan.kept == KeptSlots(legacy[..i]) == plan.sellable.Keys
    {
      assert legacy[..i + 1] == legacy[..i] + [legacy[i]];
      if legacy[i].kept {
        var duplicateOf := plan.KeepLegacy(legacy[i].slot, legacy[i].externalKey);
      }
    }
    assert legacy[..|legacy|] == legacy;
  }

  lemma RowsAreKeyed(rows: seq<PlanRow<Slot>>, package: string, ordered: seq<int>, draftKey: Option<string>)
    requires KeyedByIdentity(rows)
    ensures KeyedByIdentity(rows + RowsFor(package, ordered, draftKey))
  {
    var more := RowsFor(package, ordered, draftKey);
    forall r | r in more && r.created
      ensures r.externalKey == CreatedKey(r.identity)
    {
      var i :| 0 <= i < |more| && more[i] == r;
      assert more[i] == RowAt(package, ordered, draftKey, i);
    }
  }

  // Every row that is not created carries a wanted draft of its package at a level of its ladder.
  ghost predicate CarryDrafts(rows: seq<PlanRow<Slot>>, drafts: seq<Candidate>, owned: set<string>) {
    forall r :: r in rows && !r.created ==> exists d :: d in drafts && Carries(r, d, owned)
  }

  predicate Carries(r: PlanRow<Slot>, d: Candidate, owned: set<string>) {
    Wants(d, owned) && d.package == r.identity.package && d.externalKey == r.externalKey && r.identity.level in d.ladder.value
  }

  lemma OfferCarriesDraft(rows: seq<PlanRow<Slot>>, c: Candidate, isDraft: bool, sellable: set<Slot>, drafts: seq<Candidate>, owned: set<string>)
    requires CarryDrafts(rows, drafts, owned) && c.ladder.Some? && Ascending(c.ladder.value)
    requires isDraft ==> c in drafts && Wants(c, owned)
    ensures CarryDrafts(rows + RowsFor(c.package, Reversed(Free(sellable, c.package, c.ladder.value)), if isDraft then Some(c.externalKey) else None),
                        drafts, owned)
  {
    var draftKey := if isDraft then Some(c.externalKey) else None;
    var more := RowsFor(c.package, Reversed(Free(sellable, c.package, c.ladder.value)), draftKey);
    OfferInOrder(c.package, sellable, c.ladder.value, draftKey);
    forall r | r in rows + more && !r.created
      ensures exists d :: d in drafts && Carries(r, d, owned)
    {
      if r !in rows {
        var i :| 0 <= i < |more| && more[i] == r;
        assert Carries(r, c, owned);
      }
    }
  }

  method PlanCandidate(plan: Registry<Slot>, c: Candidate, taken: set<string>, isDraft: bool, ghost drafts: seq<Candidate>, ghost owned: set<string>)
    requires plan.Valid() && plan.Apart() && KeyedByIdentity(plan.newRows) && CarryDrafts(plan.newRows, drafts, owned)
    requires c.ladder.Some? ==> c.ladder.value != [] && Ascending(c.ladder.value)
    requires isDraft ==> c in drafts && taken == owned
    modifies plan
    ensures plan.Valid() && plan.Apart() && plan.kept == old(plan.kept) && KeyedByIdentity(plan.newRows) && CarryDrafts(plan.newRows, drafts, owned)
    ensures plan.sellable.Keys == old(plan.sellable.Keys) + if Wants(c, taken) then SlotsOf(c.package, c.ladder.value) else {}
  {
    if c.ladder.Some? && c.package !in taken {
      var draftKey := if isDraft then Some(c.externalKey) else None;
      RowsAreKeyed(plan.newRows, c.package, Reversed(Free(plan.sellable.Keys, c.package, c.ladder.value)), draftKey);
      OfferCarriesDraft(plan.newRows, c, isDraft, plan.sellable.Keys, drafts, owned);
      var duplicateOf := PlanOffers(plan, c.package, c.ladder.value, draftKey);
    }
  }

  method PlanAll(plan: Registry<Slot>, candidates: seq<Candidate>, taken: set<string>, areDrafts: bool, ghost drafts: seq<Candidate>, ghost owned: set<string>)
    requires plan.Valid() && plan.Apart() && SoundLadders(candidates) && KeyedByIdentity(plan.newRows) && CarryDrafts(plan.newRows, drafts, owned)
    requires areDrafts ==> drafts == candidates && owned == taken
    modifies plan
    ensures plan.Valid() && plan.Apart() && plan.kept == old(plan.kept) && KeyedByIdentity(plan.newRows) && CarryDrafts(plan.newRows, drafts, owned)
    ensures plan.sellable.Keys == old(plan.sellable.Keys) + OfferedSlots(candidates, taken)
  {
    for i := 0 to |candidates|
      invariant plan.Valid() && plan.Apart() && plan.kept == old(plan.kept)
      invariant KeyedByIdentity(plan.newRows) && CarryDrafts(plan.newRows, drafts, owned)
      invariant plan.sellable.Keys == old(plan.sellable.Keys) + OfferedSlots(candidates[..i], taken)
    {
      assert candidates[i] in candidates;
      OfferedMore(candidates, i, taken);
      PlanCandidate(plan, candidates[i], taken, areDrafts, drafts, owned);
    }
    assert candidates[..|candidates|] == candidates;
  }

  // ---------------------------------------------------------------- items

  datatype ItemIdentity = ItemIdentity(package: string, quantity: nat, quality: real)

  function ItemCreatedKey(i: ItemIdentity): string {
    "item-catalog:" + i.package + "@" + Decimal(i.quantity)
  }

  lemma ItemKeysOfPackages(a: ItemIdentity, b: ItemIdentity)
    ensures ItemCreatedKey(a) == ItemCreatedKey(b) ==> a.package == b.package && a.quantity == b.quantity
  {
    DecimalDigits(a.quantity);
    DecimalDigits(b.quantity);
    if ItemCreatedKey(a) == ItemCreatedKey(b) {
      var prefix := "item-catalog:";
      KeySplits(prefix + a.package, Decimal(a.quantity), prefix + b.package, Decimal(b.quantity));
      assert (prefix + a.package)[|prefix|..] == a.package && (prefix + b.package)[|prefix|..] == b.package;
      DecimalInjective(a.quantity, b.quantity);
    }
  }

  method PlanOffer(plan: Registry<ItemIdentity>, identity: ItemIdentity, draftKey: Option<string>) returns (duplicateOf: Option<string>)
    requires plan.Valid() && plan.Keyed() && draftKey != Some("")
    modifies plan
    ensures plan.Valid() && plan.Keyed() && plan.kept == old(plan.kept) && plan.named == old(plan.named)
    ensures duplicateOf == if old(plan.HasOwner(identity)) then Some(old(plan.sellable)[identity]) else None
    ensures duplicateOf.Some? ==> plan.newRows == old(plan.newRows) && plan.sellable == old(plan.sellable)
    ensures duplicateOf.None? ==>
              && plan.newRows == old(plan.newRows) + [ItemRow(identity, draftKey)]
              && plan.sellable == old(plan.sellable)[identity := ItemRow(identity, draftKey).externalKey]
    ensures Identities(plan.newRows) == old(Identities(plan.newRows)) + ({identity} - plan.named)
  {
    if plan.HasOwner(identity) {
      assert identity in plan.named || identity in Identities(plan.newRows);
      return Some(plan.sellable[identity]);
    }
    assert identity !in plan.named && identity !in Identities(plan.newRows);
    plan.AddRow(ItemRow(identity, draftKey));
    return None;
  }

  function ItemRow(identity: ItemIdentity, draftKey: Option<string>): PlanRow<ItemIdentity> {
    PlanRow(identity, if draftKey.Some? then draftKey.value else ItemCreatedKey(identity), draftKey.None?)
  }

  // Rows of several different blueprints are kept too, but register no identity.
  datatype ItemLegacy = ItemLegacy(identity: ItemIdentity, externalKey: string, registers: bool)

  // The offer is the quantity and quality the item would be sold in.
  datatype ItemCandidate = ItemCandidate(package: string, externalKey: string, offer: Option<(nat, real)>)

  // Every draft has this prefix; it is how drafts are picked out.
  const DRAFT_KEY_PREFIX := "frozen-reference:"

  function RegisteredItems(legacy: seq<ItemLegacy>): set<ItemIdentity> {
    set l | l in legacy && l.registers :: l.identity
  }

  // Those registered by a row whose key is not empty.
  function NamedItems(legacy: seq<ItemLegacy>): set<ItemIdentity> {
    set l | l in legacy && l.registers && l.externalKey != "" :: l.identity
  }

  predicate ItemWanted(c: ItemCandidate, taken: set<string>) {
    c.offer.Some? && c.package !in taken
  }

  function IdentityOf(c: ItemCandidate): ItemIdentity
    requires c.offer.Some?
  {
    ItemIdentity(c.package, c.offer.value.0, c.offer.value.1)
  }

  function OfferedItems(candidates: seq<ItemCandidate>, taken: set<string>): set<ItemIdentity> {
    set c | c in candidates && ItemWanted(c, taken) :: IdentityOf(c)
  }

  ghost predicate OwnPackages(candidates: seq<ItemCandidate>) {
    forall i, j :: 0 <= i < j < |candidates| ==> candidates[i].package != candidates[j].package
  }

  ghost predicate CreatedKeysDiffer(rows: seq<PlanRow<ItemIdentity>>) {
    forall i, j :: 0 <= i < j < |rows| && rows[i].created && rows[j].created ==> rows[i].externalKey != rows[j].externalKey
  }

  // The identities that get a new row: all that are offered, but those a kept row owns by its key.
  function PlannedItems(legacy: seq<ItemLegacy>, drafts: seq<ItemCandidate>, wiki: seq<ItemCandidate>,
                        owned: set<string>, seen: set<string>): set<ItemIdentity>
  {
    OfferedItems(drafts, owned) + OfferedItems(wiki, owned + seen) - NamedItems(legacy)
  }

  // Every row is the draft it carries, or is created under its own key for a wiki item.
  ghost predicate RowsFromOffers(rows: seq<PlanRow<ItemIdentity>>, drafts: seq<ItemCandidate>, owned: set<string>,
                                 wiki: seq<ItemCandidate>, taken: set<string>)
  {
    forall r :: r in rows ==>
      if r.created then r.externalKey == ItemCreatedKey(r.identity) && r.identity in OfferedItems(wiki, taken)
      else exists d :: d in drafts && CarriesItem(r, d, owned)
  }

  predicate CarriesItem(r: PlanRow<ItemIdentity>, d: ItemCandidate, owned: set<string>) {
    ItemWanted(d, owned) && IdentityOf(d) == r.identity && d.externalKey == r.externalKey
  }

  lemma OneMoreDraft(rows: seq<PlanRow<ItemIdentity>>, d: ItemCandidate, drafts: seq<ItemCandidate>, owned: set<string>, taken: set<string>)
    requires RowsFromOffers(rows, drafts, owned, [], taken) && d in drafts && ItemWanted(d, owned)
    ensures RowsFromOffers(rows + [ItemRow(IdentityOf(d), Some(d.externalKey))], drafts, owned, [], taken)
  {
    var row := ItemRow(IdentityOf(d), Some(d.externalKey));
    assert CarriesItem(row, d, owned);
  }

  lemma OneMoreWiki(rows: seq<PlanRow<ItemIdentity>>, c: ItemCandidate, drafts: seq<ItemCandidate>, owned: set<string>,
                    before: seq<ItemCandidate>, taken: set<string>)
    requires RowsFromOffers(rows, drafts, owned, before, taken)
    ensures RowsFromOffers(rows, drafts, owned, before + [c], taken)
    ensures ItemWanted(c, taken) ==> RowsFromOffers(rows + [ItemRow(IdentityOf(c), None)], drafts, owned, before + [c], taken)
  {
    assert OfferedItems(before + [c], taken) == OfferedItems(before, taken) + (if ItemWanted(c, taken) then {IdentityOf(c)} else {}) by {
      OfferedItemsMore(before + [c], |before|, taken);
      assert (before + [c])[..|before|] == before && (before + [c])[..|before| + 1] == before + [c];
    }
  }

  /**
   The item plan: one row for every identity offered that no kept legacy row owns by its key, and
   no two created rows with one external key. `owned` are the packages of legacy rows, `seen`
   those of any product the wiki is checked against.
   */
  method BuildItemPlan(legacy: seq<ItemLegacy>, drafts: seq<ItemCandidate>, wiki: seq<ItemCandidate>, owned: set<string>, seen: set<string>)
    returns (plan: Registry<ItemIdentity>)
    requires OwnPackages(wiki) && forall d :: d in drafts ==> DRAFT_KEY_PREFIX <= d.externalKey
    ensures fresh(plan) && plan.Valid() && plan.kept == RegisteredItems(legacy)
    ensures Distinct(plan.newRows) && Identities(plan.newRows) == PlannedItems(legacy, drafts, wiki, owned, seen)
    ensures CreatedKeysDiffer(plan.newRows) && RowsFromOffers(plan.newRows, drafts, owned, wiki, owned + seen)
    ensures plan.sellable.Keys == RegisteredItems(legacy) + OfferedItems(drafts, owned) + OfferedItems(wiki, owned + seen)
  {
    plan := new Registry<ItemIdentity>();
    for i := 0 to |legacy|
      invariant fresh(plan) && plan.Valid() && plan.newRows == []
      invariant plan.kept == RegisteredItems(legacy[..i]) && plan.named == NamedItems(legacy[..i])
    {
      KeptMore(legacy, i);
      if legacy[i].registers {
        var duplicateOf := plan.KeepLegacy(legacy[i].identity, legacy[i].externalKey);
      }
    }
    assert legacy[..|legacy|] == legacy;
    PlanDraftItems(plan, drafts, owned, owned + seen);
    PlanWikiItems(plan, wiki, owned + seen, drafts, owned);
  }

  lemma KeptMore(legacy: seq<ItemLegacy>, n: nat)
    requires n < |legacy|
    ensures RegisteredItems(legacy[..n + 1]) ==
            RegisteredItems(legacy[..n]) + if legacy[n].registers then {legacy[n].identity} else {}
    ensures NamedItems(legacy[..n + 1]) ==
            NamedItems(legacy[..n]) + if legacy[n].registers && legacy[n].externalKey != "" then {legacy[n].identity} else {}
  {
    assert legacy[..n + 1] == legacy[..n] + [legacy[n]];
    assert forall l :: l in legacy[..n + 1] <==> l in legacy[..n] || l == legacy[n];
  }

  // Some kept row registers the identity, and every one that does has an empty key.
  ghost predicate OnlyUnnamed(legacy: seq<ItemLegacy>, id: ItemIdentity) {
    id in RegisteredItems(legacy) && forall l :: l in legacy && l.registers && l.identity == id ==> l.externalKey == ""
  }

  /**
   A new row takes a kept row's identity exactly when a wanted draft offers it and the kept rows
   that register it all have an empty external key. The wiki never does: it is not asked about
   packages of rows that register one.
   */
  lemma KeptIdentityIsSoldAgainExactly(legacy: seq<ItemLegacy>, drafts: seq<ItemCandidate>, wiki: seq<ItemCandidate>,
                                       owned: set<string>, seen: set<string>)
    requires forall l :: l in legacy && l.registers ==> l.identity.package in seen
    ensures RegisteredItems(legacy) * PlannedItems(legacy, drafts, wiki, owned, seen) ==
            set id | id in OfferedItems(drafts, owned) && OnlyUnnamed(legacy, id)
    ensures !(RegisteredItems(legacy) !! PlannedItems(legacy, drafts, wiki, owned, seen)) <==>
            exists c :: c in drafts && ItemWanted(c, owned) && OnlyUnnamed(legacy, IdentityOf(c))
  {
    var planned := PlannedItems(legacy, drafts, wiki, owned, seen);
    forall id
      ensures id in RegisteredItems(legacy) && id in planned <==> id in OfferedItems(drafts, owned) && OnlyUnnamed(legacy, id)
    {
      if id in RegisteredItems(legacy) {
        assert id.package in seen;
        assert id !in OfferedItems(wiki, owned + seen);
        assert id in NamedItems(legacy) <==> !OnlyUnnamed(legacy, id);
      }
    }
    if c :| c in drafts && ItemWanted(c, owned) && OnlyUnnamed(legacy, IdentityOf(c)) {
      assert IdentityOf(c) in OfferedItems(drafts, owned);
      assert IdentityOf(c) in RegisteredItems(legacy) * planned;
    }
    if id :| id in RegisteredItems(legacy) * planned {
      assert id in OfferedItems(drafts, owned);
      var c :| c in drafts && ItemWanted(c, owned) && IdentityOf(c) == id;
    }
  }

  /** The input: a kept row with an empty key, and a draft of the same blueprint, quantity and quality. */
  lemma EmptyKeyIsNoOwner(id: ItemIdentity, name: string)
    ensures var legacy, drafts := [ItemLegacy(id, "", true)],
                                  [ItemCandidate(id.package, DRAFT_KEY_PREFIX + name, Some((id.quantity, id.quality)))];
            id in RegisteredItems(legacy) && id in PlannedItems(legacy, drafts, [], {}, {id.package})
  {
    var legacy, drafts := [ItemLegacy(id, "", true)],
                          [ItemCandidate(id.package, DRAFT_KEY_PREFIX + name, Some((id.quantity, id.quality)))];
    assert legacy[0] in legacy && drafts[0] in drafts;
    assert ItemWanted(drafts[0], {}) && IdentityOf(drafts[0]) == id;
    assert id in OfferedItems(drafts, {});
  }

  lemma OfferedItemsMore(candidates: seq<ItemCandidate>, n: nat, taken: set<string>)
    requires n < |candidates|
    ensures OfferedItems(candidates[..n + 1], taken) ==
            OfferedItems(candidates[..n], taken) + (if ItemWanted(candidates[n], taken) then {IdentityOf(candidates[n])} else {})
  {
    assert candidates[..n + 1] == candidates[..n] + [candidates[n]];
    assert forall c :: c in candidates[..n + 1] <==> c in candidates[..n] || c == candidates[n];
  }

  method PlanDraftItems(plan: Registry<ItemIdentity>, drafts: seq<ItemCandidate>, owned: set<string>, ghost taken: set<string>)
    requires plan.Valid() && plan.newRows == []
    requires forall d :: d in drafts ==> DRAFT_KEY_PREFIX <= d.externalKey
    modifies plan
    ensures plan.Valid() && plan.Keyed() && plan.kept == old(plan.kept) && plan.named == old(plan.named)
    ensures (forall r :: r in plan.newRows ==> !r.created) && RowsFromOffers(plan.newRows, drafts, owned, [], taken)
    ensures Identities(plan.newRows) == OfferedItems(drafts, owned) - plan.named
  {
    for i := 0 to |drafts|
      invariant plan.Valid() && plan.Keyed() && plan.kept == old(plan.kept) && plan.named == old(plan.named)
      invariant (forall r :: r in plan.newRows ==> !r.created) && RowsFromOffers(plan.newRows, drafts, owned, [], taken)
      invariant Identities(plan.newRows) == OfferedItems(drafts[..i], owned) - plan.named
    {
      var c := drafts[i];
      OfferedItemsMore(drafts, i, owned);
      assert c in drafts;
      if c.package !in owned && c.offer.Some? {
        OneMoreDraft(plan.newRows, c, drafts, owned, taken);
        var duplicateOf := PlanOffer(plan, IdentityOf(c), Some(c.externalKey));
      }
    }
    assert drafts[..|drafts|] == drafts;
  }

  // Every created row is for one of these candidates.
  ghost predicate CreatedFor(rows: seq<PlanRow<ItemIdentity>>, candidates: seq<ItemCandidate>) {
    forall r :: r in rows && r.created ==>
      r.externalKey == ItemCreatedKey(r.identity) && exists c :: c in candidates && c.package == r.identity.package
  }

  lemma NewKeyDiffers(rows: seq<PlanRow<ItemIdentity>>, candidates: seq<ItemCandidate>, row: PlanRow<ItemIdentity>)
    requires CreatedFor(rows, candidates) && CreatedKeysDiffer(rows)
    requires row.created && row.externalKey == ItemCreatedKey(row.identity)
    requires forall c :: c in candidates ==> c.package != row.identity.package
    ensures CreatedKeysDiffer(rows + [row])
  {
    forall i | 0 <= i < |rows| && rows[i].created
      ensures rows[i].externalKey != row.externalKey
    {
      assert rows[i] in rows;
      ItemKeysOfPackages(rows[i].identity, row.identity);
    }
  }

  method PlanWikiItem(plan: Registry<ItemIdentity>, c: ItemCandidate, ghost before: seq<ItemCandidate>, taken: set<string>,
                      ghost drafts: seq<ItemCandidate>, ghost owned: set<string>)
    requires RowsFromOffers(plan.newRows, drafts, owned, before, taken)
    requires plan.Valid() && plan.Keyed() && CreatedKeysDiffer(plan.newRows) && CreatedFor(plan.newRows, before)
    requires forall d :: d in before ==> d.package != c.package
    modifies plan
    ensures plan.Valid() && plan.Keyed() && plan.kept == old(plan.kept) && plan.named == old(plan.named)
    ensures CreatedKeysDiffer(plan.newRows) && CreatedFor(plan.newRows, before + [c])
    ensures RowsFromOffers(plan.newRows, drafts, owned, before + [c], taken)
    ensures Identities(plan.newRows) == old(Identities(plan.newRows)) + ((if ItemWanted(c, taken) then {IdentityOf(c)} else {}) - plan.named)
  {
    assert c in before + [c];
    OneMoreWiki(plan.newRows, c, drafts, owned, before, taken);
    if c.package !in taken && c.offer.Some? {
      NewKeyDiffers(plan.newRows, before, ItemRow(IdentityOf(c), None));
      var duplicateOf := PlanOffer(plan, IdentityOf(c), None);
    }
  }

  lemma NoneCreated(rows: seq<PlanRow<ItemIdentity>>)
    requires forall r :: r in rows ==> !r.created
    ensures CreatedKeysDiffer(rows) && CreatedFor(rows, [])
  {
    assert forall i :: 0 <= i < |rows| ==> rows[i] in rows;
  }

  lemma EarlierDiffer(wiki: seq<ItemCandidate>, n: nat)
    requires OwnPackages(wiki) && n < |wiki|
    ensures wiki[..n + 1] == wiki[..n] + [wiki[n]]
    ensures forall d :: d in wiki[..n] ==> d.package != wiki[n].package
  {
  }

  method PlanWikiItems(plan: Registry<ItemIdentity>, wiki: seq<ItemCandidate>, taken: set<string>, ghost drafts: seq<ItemCandidate>, ghost owned: set<string>)
    requires RowsFromOffers(plan.newRows, drafts, owned, [], taken)
    requires plan.Valid() && plan.Keyed() && OwnPackages(wiki) && forall r :: r in plan.newRows ==> !r.created
    modifies plan
    ensures plan.Valid() && plan.Keyed() && plan.kept == old(plan.kept) && plan.named == old(plan.named) && CreatedKeysDiffer(plan.newRows)
    ensures RowsFromOffers(plan.newRows, drafts, owned, wiki, taken)
    ensures Identities(plan.newRows) == old(Identities(plan.newRows)) + (OfferedItems(wiki, taken) - plan.named)
  {
    NoneCreated(plan.newRows);
    assert wiki[..0] == [];
    for i := 0 to |wiki|
      invariant plan.Valid() && plan.Keyed() && plan.kept == old(plan.kept) && plan.named == old(plan.named)
      invariant CreatedKeysDiffer(plan.newRows) && CreatedFor(plan.newRows, wiki[..i])
      invariant RowsFromOffers(plan.newRows, drafts, owned, wiki[..i], taken)
      invariant Identities(plan.newRows) == old(Identities(plan.newRows)) + (OfferedItems(wiki[..i], taken) - plan.named)
    {
      OfferedItemsMore(wiki, i, taken);
      EarlierDiffer(wiki, i);
      PlanWikiItem(plan, wiki[i], wiki[..i], taken, drafts, owned);
    }
    assert wiki[..|wiki|] == wiki;
  }
}
