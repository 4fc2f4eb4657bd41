/**
 Item delivery: give modes, the slot pre-flight, and the give loop
 (ItemDelivery.cpp; HeartShop.cpp, GiveItemsToPlayer).

 The inventory is the stack inventory the pre-flight is written for: a stackable line first
 tops up partial stacks of its item and splits the rest into full-size stacks; anything else
 takes one slot a unit.
 */
module ItemDelivery {
  import opened Numbers

  datatype Line = Line(item: nat, quantity: int, isBlueprint: bool, quality: real)

  datatype GiveMode = PerUnit | TemplateIncrement

  function ChooseGiveMode(maxStack: int, isBlueprint: bool): GiveMode {
    if isBlueprint || maxStack <= 1 then PerUnit else TemplateIncrement
  }

  const INT64_MAX: int := 0x7fff_ffff_ffff_ffff

  function SlotsForLine(quantity: int, maxStack: int, isBlueprint: bool): (slots: int)
    ensures 0 <= slots <= if quantity < 0 then 0 else quantity
  {
    if quantity <= 0 then 0
    else if ChooseGiveMode(maxStack, isBlueprint) == PerUnit then quantity
    else
      DivisionBound(quantity + maxStack - 1, maxStack, quantity);
      (quantity + maxStack - 1) / maxStack
  }

  lemma DivisionBound(n: int, d: int, q: int)
    requires d > 1 && q >= 1 && n == q + d - 1
    ensures 0 <= n / d <= q
    ensures (n / d) * d >= q
  {
    ProductBound(q, d);
    DivisionBelow(n, d, q + 1);
    QuotientCovers(n, d);
  }

  lemma ProductBound(q: int, d: int)
    requires d > 1 && q >= 1
    ensures q + d - 1 < (q + 1) * d
  {
    assert q * d >= q;
    assert (q + 1) * d == q * d + d;
  }

  lemma QuotientCovers(n: int, d: int)
    requires d > 0
    ensures n - d < n / d * d <= n
  {
  }

  lemma DivisionBelow(n: int, d: int, k: int)
    requires d > 0 && n < k * d
    ensures n / d < k
  {
  }

  // The quotient rounded up.
  lemma CeilingAtMost(q: int, d: int, k: int)
    requires d > 0
    ensures (q + d - 1) / d <= k <==> q <= k * d
  {
    assert (k + 1) * d == k * d + d;
    if q <= k * d {
      DivisionBelow(q + d - 1, d, k + 1);
    } else {
      DivisionAbove(q + d - 1, d, k + 1);
    }
  }

  lemma DivisionAbove(n: int, d: int, k: int)
    requires d > 0 && n >= k * d
    ensures n / d >= k
  {
    QuotientCovers(n, d);
    NextMultiple(n / d, k, d);
  }

  // The units one new slot holds.
  function UnitsPerSlot(maxStack: int, isBlueprint: bool): (units: int)
    ensures units >= 1
  {
    if ChooseGiveMode(maxStack, isBlueprint) == PerUnit then 1 else maxStack
  }

  /** The slots of a line are the fewest that hold its quantity. */
  lemma SlotsAreFewest(quantity: int, maxStack: int, isBlueprint: bool, k: nat)
    ensures SlotsForLine(quantity, maxStack, isBlueprint) <= k <==> quantity <= k * if isBlueprint || maxStack <= 1 then 1 else maxStack
  {
    var size := UnitsPerSlot(maxStack, isBlueprint);
    if quantity <= 0 {
      assert k * size >= 0;
    } else if size > 1 {
      CeilingAtMost(quantity, size, k);
    }
  }

  // A cap of zero or less, or an inventory that ignores its cap, has no limit.
  function FreeSlots(currentItems: int, maxItems: int, ignoreMax: bool): (free: int)
    ensures ignoreMax || maxItems <= 0 ==> free == INT64_MAX
    ensures !ignoreMax && maxItems > 0 ==> 0 <= free <= maxItems
    ensures !ignoreMax && 0 <= currentItems <= maxItems && maxItems > 0 ==> currentItems + free == maxItems
    ensures !ignoreMax && 0 < maxItems <= currentItems ==> free == 0
    ensures !ignoreMax && currentItems < 0 < maxItems ==> free == maxItems
  {
    if ignoreMax || maxItems <= 0 then INT64_MAX
    else
      var free := maxItems - (if currentItems < 0 then 0 else currentItems);
      if free < 0 then 0 else free
  }

  predicate HasRoomFor(slotsNeeded: int, free: int) {
    slotsNeeded <= free
  }

  // ---------------------------------------------------------------- the stack inventory

  datatype Stack = Stack(item: nat, isBlueprint: bool, count: nat)

  function CountOf(inv: seq<Stack>, item: nat, isBlueprint: bool): nat {
    if inv == [] then 0
    else (if inv[0].item == item && inv[0].isBlueprint == isBlueprint then inv[0].count else 0) +
         CountOf(inv[1..], item, isBlueprint)
  }

  // The units a partial stack of the item takes.
  function Taken(s: Stack, item: nat, maxStack: nat, units: nat): (used: nat)
    ensures used <= units && (used > 0 ==> s.item == item && !s.isBlueprint)
  {
    var space := if s.item == item && !s.isBlueprint && s.count < maxStack then maxStack - s.count else 0;
    if units < space then units else space
  }

  // Units left over once every partial stack of the item is filled.
  function TopUp(inv: seq<Stack>, item: nat, maxStack: nat, units: nat): (r: (seq<Stack>, nat))
    ensures |r.0| == |inv| && r.1 <= units
  {
    if inv == [] then ([], units)
    else
      var used := Taken(inv[0], item, maxStack, units);
      var (rest, left) := TopUp(inv[1..], item, maxStack, units - used);
      ([inv[0].(count := inv[0].count + used)] + rest, left)
  }

  // New stacks for `units`, while slots last; the second result is what did not fit.
  function NewStacks(item: nat, isBlueprint: bool, stackSize: nat, units: nat, free: nat): (r: (seq<Stack>, nat))
    requires stackSize > 0
    ensures |r.0| <= free && r.1 <= units
    decreases units
  {
    if units == 0 || free == 0 then ([], units)
    else
      var now := if units < stackSize then units else stackSize;
      var (rest, left) := NewStacks(item, isBlueprint, stackSize, units - now, free - 1);
      ([Stack(item, isBlueprint, now)] + rest, left)
  }

  /** One line put into an inventory of `slots` slots: the new inventory and the units that did not fit. */
  function Put(inv: seq<Stack>, slots: nat, line: Line, maxStack: int): (r: (seq<Stack>, nat))
    requires |inv| <= slots
    ensures |r.0| <= slots
  {
    var units: nat := if line.quantity < 0 then 0 else line.quantity;
    if ChooseGiveMode(maxStack, line.isBlueprint) == PerUnit then
      var (added, left) := NewStacks(line.item, line.isBlueprint, 1, units, slots - |inv|);
      (inv + added, left)
    else
      var (topped, rest) := TopUp(inv, line.item, maxStack, units);
      var (added, left) := NewStacks(line.item, false, maxStack, rest, slots - |inv|);
      (topped + added, left)
  }

  // A stack size for each item, as the game reports it.
  type StackSizes = nat -> int

  function SlotsForOrder(lines: seq<Line>, maxStack: StackSizes): (slots: int)
    ensures slots >= 0
  {
    if lines == [] then 0
    else SlotsForLine(lines[0].quantity, maxStack(lines[0].item), lines[0].isBlueprint) + SlotsForOrder(lines[1..], maxStack)
  }

  function PutAll(inv: seq<Stack>, slots: nat, lines: seq<Line>, maxStack: StackSizes): (r: (seq<Stack>, nat))
    requires |inv| <= slots
    ensures |r.0| <= slots
    decreases |lines|
  {
    if lines == [] then (inv, 0)
    else
      var (next, left) := Put(inv, slots, lines[0], maxStack(lines[0].item));
      var (end, more) := PutAll(next, slots, lines[1..], maxStack);
      (end, left + more)
  }

  function OrderedUnits(lines: seq<Line>, item: nat, isBlueprint: bool): nat {
    if lines == [] then 0
    else (if lines[0].item == item && lines[0].isBlueprint == isBlueprint && lines[0].quantity > 0 then lines[0].quantity else 0) +
         OrderedUnits(lines[1..], item, isBlueprint)
  }

  lemma {:induction false} CountOfConcat(a: seq<Stack>, b: seq<Stack>, item: nat, bp: bool)
    ensures CountOf(a + b, item, bp) == CountOf(a, item, bp) + CountOf(b, item, bp)
  {
    if a == [] {
      assert a + b == b;
    } else {
      assert (a + b)[0] == a[0] && (a + b)[1..] == a[1..] + b;
      CountOfConcat(a[1..], b, item, bp);
    }
  }

  lemma {:induction false} TopUpCounts(inv: seq<Stack>, item: nat, maxStack: nat, units: nat, other: nat, bp: bool)
    ensures var (r, left) := TopUp(inv, item, maxStack, units);
            CountOf(r, other, bp) == CountOf(inv, other, bp) + if other == item && !bp then units - left else 0
  {
    if inv != [] {
      var used := Taken(inv[0], item, maxStack, units);
      TopUpCounts(inv[1..], item, maxStack, units - used, other, bp);
      CountOfFirst(inv[0].(count := inv[0].count + used), TopUp(inv[1..], item, maxStack, units - used).0, other, bp);
    }
  }

  lemma CountOfFirst(s: Stack, rest: seq<Stack>, item: nat, bp: bool)
    ensures CountOf([s] + rest, item, bp) == (if s.item == item && s.isBlueprint == bp then s.count else 0) + CountOf(rest, item, bp)
  {
    assert ([s] + rest)[1..] == rest;
  }

  lemma {:induction false} NewStacksCounts(item: nat, isBlueprint: bool, size: nat, units: nat, free: nat, other: nat, bp: bool)
    requires size > 0
    ensures var (r, left) := NewStacks(item, isBlueprint, size, units, free);
            CountOf(r, other, bp) == if other == item && bp == isBlueprint then units - left else 0
    decreases units
  {
    if units != 0 && free != 0 {
      var now := if units < size then units else size;
      NewStacksCounts(item, isBlueprint, size, units - now, free - 1, other, bp);
      var (rest, left) := NewStacks(item, isBlueprint, size, units - now, free - 1);
      assert ([Stack(item, isBlueprint, now)] + rest)[1..] == rest;
    }
  }

  /** `need` slots are enough for `units` when full-size stacks would need that many. */
  lemma {:induction false} NewStacksFit(item: nat, isBlueprint: bool, size: nat, units: nat, free: nat, need: nat)
    requires size > 0 && units <= need * size && need <= free
    ensures NewStacks(item, isBlueprint, size, units, free).1 == 0
    ensures |NewStacks(item, isBlueprint, size, units, free).0| <= need
    decreases units
  {
    if units != 0 && free != 0 {
      var now := if units < size then units else size;
      assert need > 0;
      assert units - now <= (need - 1) * size by {
        assert need * size == (need - 1) * size + size;
        assert (need - 1) * size >= 0;
      }
      NewStacksFit(item, isBlueprint, size, units - now, free - 1, need - 1);
    }
  }

  /** A line whose pre-flight slots are free is put in full, uses no more slots than that, and changes nothing else. */
  lemma LineFits(inv: seq<Stack>, slots: nat, line: Line, maxStack: int)
    requires |inv| + SlotsForLine(line.quantity, maxStack, line.isBlueprint) <= slots
    ensures var (end, left) := Put(inv, slots, line, maxStack);
            left == 0 && |end| <= |inv| + SlotsForLine(line.quantity, maxStack, line.isBlueprint)
  {
    var units: nat := if line.quantity < 0 then 0 else line.quantity;
    var need := SlotsForLine(line.quantity, maxStack, line.isBlueprint);
    if ChooseGiveMode(maxStack, line.isBlueprint) == PerUnit {
      NewStacksFit(line.item, line.isBlueprint, 1, units, slots - |inv|, need);
    } else {
      var (topped, rest) := TopUp(inv, line.item, maxStack, units);
      if units > 0 {
        DivisionBound(line.quantity + maxStack - 1, maxStack, line.quantity);
      }
      NewStacksFit(line.item, false, maxStack, rest, slots - |inv|, need);
    }
  }

  lemma PutCounts(inv: seq<Stack>, slots: nat, line: Line, maxStack: int, item: nat, bp: bool)
    requires |inv| <= slots && line.quantity >= 0
    ensures var (end, left) := Put(inv, slots, line, maxStack);
            CountOf(end, item, bp) == CountOf(inv, item, bp) +
            if item == line.item && bp == line.isBlueprint then line.quantity - left else 0
  {
    if ChooseGiveMode(maxStack, line.isBlueprint) == PerUnit {
      PutUnitsCounts(inv, slots, line, item, bp);
    } else {
      PutStacksCounts(inv, slots, line, maxStack, item, bp);
    }
  }

  lemma PutUnitsCounts(inv: seq<Stack>, slots: nat, line: Line, item: nat, bp: bool)
    requires |inv| <= slots && line.quantity >= 0
    ensures var (added, left) := NewStacks(line.item, line.isBlueprint, 1, line.quantity, slots - |inv|);
            CountOf(inv + added, item, bp) == CountOf(inv, item, bp) +
            if item == line.item && bp == line.isBlueprint then line.quantity - left else 0
  {
    NewStacksCounts(line.item, line.isBlueprint, 1, line.quantity, slots - |inv|, item, bp);
    CountOfConcat(inv, NewStacks(line.item, line.isBlueprint, 1, line.quantity, slots - |inv|).0, item, bp);
  }

  lemma PutStacksCounts(inv: seq<Stack>, slots: nat, line: Line, maxStack: nat, item: nat, bp: bool)
    requires |inv| <= slots && line.quantity >= 0 && maxStack > 0
    ensures var (topped, rest) := TopUp(inv, line.item, maxStack, line.quantity);
            var (added, left) := NewStacks(line.item, false, maxStack, rest, slots - |inv|);
            CountOf(topped + added, item, bp) == CountOf(inv, item, bp) +
            if item == line.item && !bp then line.quantity - left else 0
  {
    var (topped, rest) := TopUp(inv, line.item, maxStack, line.quantity);
    TopUpCounts(inv, line.item, maxStack, line.quantity, item, bp);
    NewStacksCounts(line.item, false, maxStack, rest, slots - |inv|, item, bp);
    CountOfConcat(topped, NewStacks(line.item, false, maxStack, rest, slots - |inv|).0, item, bp);
  }

  /**
   The pre-flight is sufficient: if the summed slots fit the free ones, every line of the order
   goes in whole, and each item's count grows by exactly what was ordered of it.
   */
  lemma {:induction false} PreflightSuffices(inv: seq<Stack>, slots: nat, lines: seq<Line>, maxStack: StackSizes, item: nat, bp: bool)
    requires |inv| <= slots
    requires HasRoomFor(SlotsForOrder(lines, maxStack), slots - |inv|)
    ensures var (end, left) := PutAll(inv, slots, lines, maxStack);
            && left == 0
            && |end| <= |inv| + SlotsForOrder(lines, maxStack)
            && CountOf(end, item, bp) == CountOf(inv, item, bp) + OrderedUnits(lines, item, bp)
    decreases |lines|
  {
    if lines != [] {
      var line := lines[0];
      LineFits(inv, slots, line, maxStack(line.item));
      if line.quantity >= 0 {
        PutCounts(inv, slots, line, maxStack(line.item), item, bp);
      } else {
        PutCounts(inv, slots, line.(quantity := 0), maxStack(line.item), item, bp);
      }
      var (next, left) := Put(inv, slots, line, maxStack(line.item));
      PreflightSuffices(next, slots, lines[1..], maxStack, item, bp);
    }
  }

  /**
   For a single line into an inventory with no stack of its item the pre-flight is also
   necessary: one slot fewer and something does not fit.
   */
  lemma SlotsAreTight(inv: seq<Stack>, slots: nat, line: Line, maxStack: int)
    requires |inv| <= slots && line.quantity > 0
    requires forall i :: 0 <= i < |inv| ==> inv[i].item != line.item
    ensures Put(inv, slots, line, maxStack).1 == 0 <==> SlotsForLine(line.quantity, maxStack, line.isBlueprint) <= slots - |inv|
  {
    var need := SlotsForLine(line.quantity, maxStack, line.isBlueprint);
    if need <= slots - |inv| {
      LineFits(inv, slots, line, maxStack);
    } else if ChooseGiveMode(maxStack, line.isBlueprint) == PerUnit {
      NewStacksShort(line.item, line.isBlueprint, 1, line.quantity, slots - |inv|);
    } else {
      NoTopUp(inv, line.item, maxStack, line.quantity);
      DivisionBound(line.quantity + maxStack - 1, maxStack, line.quantity);
      CeilingAtMost(line.quantity, maxStack, slots - |inv|);
      NewStacksShort(line.item, false, maxStack, line.quantity, slots - |inv|);
    }
  }

  lemma {:induction false} NoTopUp(inv: seq<Stack>, item: nat, maxStack: nat, units: nat)
    requires forall i :: 0 <= i < |inv| ==> inv[i].item != item
    ensures TopUp(inv, item, maxStack, units) == (inv, units)
  {
    if inv != [] {
      NoTopUp(inv[1..], item, maxStack, units);
      assert [inv[0].(count := inv[0].count)] + inv[1..] == inv;
    }
  }

  lemma {:induction false} NewStacksShort(item: nat, isBlueprint: bool, size: nat, units: nat, free: nat)
    requires size > 0 && units > free * size
    ensures NewStacks(item, isBlueprint, size, units, free).1 > 0
    decreases units
  {
    if free != 0 {
      assert free * size == (free - 1) * size + size;
      assert (free - 1) * size >= 0;
      NewStacksShort(item, isBlueprint, size, units - size, free - 1);
    }
  }

  // ---------------------------------------------------------------- the give loop

  datatype GiveStatus = Delivered | GiveDeferred | PartiallyDelivered | GiveFailed

  datatype GiveResult = GiveResult(status: GiveStatus, unitsDelivered: int)

  datatype Preflight = Ready | Defer | Fail

  function TotalUnits(lines: seq<Line>): nat {
    if lines == [] then 0 else (if lines[0].quantity > 0 then lines[0].quantity else 0) + TotalUnits(lines[1..])
  }

  /** One call to the engine that may hand something over. Stacks of a template have no quality. */
  datatype Ask = UnitAsked(item: nat, isBlueprint: bool, quality: real) | StacksAsked(item: nat, quantity: nat)

  function Repeated(ask: Ask, times: nat): (asks: seq<Ask>)
    ensures |asks| == times
  {
    if times == 0 then [] else Repeated(ask, times - 1) + [ask]
  }

  // What one line asks of the engine: each unit of its own where units do not stack, else the whole at once.
  function AsksOf(line: Line, maxStack: int): seq<Ask> {
    var quantity: nat := if line.quantity < 0 then 0 else line.quantity;
    if line.isBlueprint || maxStack <= 1 then Repeated(UnitAsked(line.item, line.isBlueprint, line.quality), quantity)
    else [StacksAsked(line.item, quantity)]
  }

  // What the first `n` lines ask, in order.
  function AsksFor(lines: seq<Line>, maxStack: StackSizes, n: nat): seq<Ask>
    requires n <= |lines|
  {
    if n == 0 then [] else AsksFor(lines, maxStack, n - 1) + AsksOf(lines[n - 1], maxStack(lines[n - 1].item))
  }

  lemma {:induction false} RepeatedPrefix(ask: Ask, a: nat, b: nat)
    requires a <= b
    ensures Repeated(ask, a) <= Repeated(ask, b)
    decreases b
  {
    if a < b {
      RepeatedPrefix(ask, a, b - 1);
    }
  }

  lemma {:induction false} AsksPrefix(lines: seq<Line>, maxStack: StackSizes, a: nat, b: nat)
    requires a <= b <= |lines|
    ensures AsksFor(lines, maxStack, a) <= AsksFor(lines, maxStack, b)
    decreases b
  {
    if a < b {
      AsksPrefix(lines, maxStack, a, b - 1);
    }
  }

  /**
   The live inventory while an order is given. `asks` are the calls made so far. `given` counts the units the engine really
   handed over; `touched` is whether the engine may have changed it at all; `trouble` is
   whether any call so far added nothing, fell short or faulted.
   */
  class Engine {
    ghost var asks: seq<Ask>
    ghost var given: nat
    ghost var touched: bool
    ghost var trouble: bool

    ghost predicate Fresh()
      reads this
    {
      asks == [] && given == 0 && !touched && !trouble
    }

    constructor ()
      ensures Fresh()
    {
      asks, given, touched, trouble := [], 0, false, false;
    }

    method InventoryIsValid() returns (valid: bool)
      modifies this`trouble
      ensures trouble == (old(trouble) || !valid)
    {
      valid := *;
      trouble := trouble || !valid;
    }

    // One unit; a call that returns no item, or faults, gave nothing.
    method AddNewItem(item: nat, isBlueprint: bool, quality: real) returns (added: bool, faulted: bool)
      modifies this
      ensures asks == old(asks) + [UnitAsked(item, isBlueprint, quality)]
      ensures given == old(given) + if added then 1 else 0
      ensures touched == (old(touched) || added)
      ensures trouble == (old(trouble) || !added) && (faulted ==> !added)
    {
      added, faulted := *, *;
      asks := asks + [UnitAsked(item, isBlueprint, quality)];
      if added {
        given := given + 1;
        touched, faulted := true, false;
      } else {
        trouble := true;
      }
    }

    // Setting the stats of a unit that was handed over may fault too.
    method ApplyItemStatOverrides() returns (faulted: bool)
      modifies this`trouble
      ensures trouble == (old(trouble) || faulted)
    {
      faulted := *;
      trouble := trouble || faulted;
    }

    // Neither measurement overstates what was handed over, and no more than asked is.
    method IncrementItemTemplateQuantity(item: nat, quantity: nat) returns (faulted: bool, returned: int, delta: int)
      modifies this
      ensures asks == old(asks) + [StacksAsked(item, quantity)]
      ensures touched && old(given) <= given <= old(given) + quantity
      ensures !faulted ==> returned <= given - old(given) && delta <= given - old(given)
      ensures trouble == (old(trouble) || faulted || (returned < quantity && delta < quantity))
    {
      var actual: int := *;
      actual := if 0 <= actual <= quantity then actual else quantity;
      faulted, returned, delta := *, *, *;
      if returned > actual {
        returned := actual;
      }
      if delta > actual {
        delta := actual;
      }
      asks := asks + [StacksAsked(item, quantity)];
      given := given + actual;
      touched := true;
      trouble := trouble || faulted || (returned < quantity && delta < quantity);
    }
  }

  /** The line is given in full exactly when nothing went wrong. */
  method GivePerUnit(engine: Engine, line: Line) returns (given: int, faulted: bool, anyMutation: bool)
    requires line.quantity >= 1 && !engine.trouble
    modifies engine
    ensures 0 <= given <= line.quantity && engine.given == old(engine.given) + given
    ensures anyMutation == (given > 0) && engine.touched == (old(engine.touched) || given > 0)
    ensures given == line.quantity && !faulted <==> !engine.trouble
    ensures var ask := UnitAsked(line.item, line.isBlueprint, line.quality);
            && engine.asks <= old(engine.asks) + Repeated(ask, line.quantity)
            && (!engine.trouble ==> engine.asks == old(engine.asks) + Repeated(ask, line.quantity))
  {
    given, faulted, anyMutation := 0, false, false;
    ghost var ask := UnitAsked(line.item, line.isBlueprint, line.quality);
    while given < line.quantity
      invariant 0 <= given <= line.quantity && engine.given == old(engine.given) + given
      invariant anyMutation == (given > 0) && engine.touched == (old(engine.touched) || given > 0)
      invariant !faulted && !engine.trouble && engine.asks == old(engine.asks) + Repeated(ask, given)
    {
      var added;
      RepeatedPrefix(ask, given + 1, line.quantity);
      added, faulted := engine.AddNewItem(line.item, line.isBlueprint, line.quality);
      assert engine.asks == old(engine.asks) + Repeated(ask, given + 1);
      if !added {
        return;
      }
      given := given + 1;
      anyMutation := true;
      faulted := engine.ApplyItemStatOverrides();
      if faulted {
        return;
      }
    }
  }

  // The pre-flight is passed and the summed slots are free.
  predicate MayGive(lines: seq<Line>, maxStack: StackSizes, free: int, preflight: Preflight) {
    lines != [] && preflight == Ready && SlotsForOrder(lines, maxStack) <= free
  }

  predicate MustWait(lines: seq<Line>, maxStack: StackSizes, free: int, preflight: Preflight) {
    lines != [] && (preflight == Defer || (preflight == Ready && SlotsForOrder(lines, maxStack) > free))
  }

  /**
   Failed and Deferred mean the inventory was not touched; Delivered means every line got its
   full quantity; anything in between is PartiallyDelivered, which the caller must not redo.
   Once the order may be given it is delivered exactly when nothing goes wrong; the engine is
   asked for the ordered lines, in order and as their stack sizes demand, and for nothing else.
   */
  method GiveItemsToPlayer(engine: Engine, lines: seq<Line>, maxStack: StackSizes, free: int, preflight: Preflight)
    returns (result: GiveResult)
    requires forall i :: 0 <= i < |lines| ==> lines[i].quantity >= 1
    requires engine.Fresh()
    modifies engine
    ensures result.status == GiveFailed || result.status == GiveDeferred ==> !engine.touched && engine.given == 0
    ensures result.status == Delivered ==> lines != [] && engine.given == TotalUnits(lines) == result.unitsDelivered
    ensures result.status == PartiallyDelivered ==> engine.touched && engine.trouble
    ensures engine.given <= TotalUnits(lines) && result.unitsDelivered <= engine.given
    ensures result.status == GiveDeferred <==> MustWait(lines, maxStack, free, preflight)
    ensures result.status == Delivered <==> MayGive(lines, maxStack, free, preflight) && !engine.trouble
    ensures result.status == PartiallyDelivered <==> MayGive(lines, maxStack, free, preflight) && engine.trouble && engine.touched
    ensures !MayGive(lines, maxStack, free, preflight) ==> engine.Fresh()
    ensures engine.asks <= AsksFor(lines, maxStack, |lines|)
    ensures result.status == Delivered ==> engine.asks == AsksFor(lines, maxStack, |lines|)
  {
    if lines == [] {
      return GiveResult(GiveFailed, 0);
    }
    if preflight == Fail {
      return GiveResult(GiveFailed, 0);
    }
    if preflight == Defer {
      return GiveResult(GiveDeferred, 0);
    }
    var slotsNeeded := SlotsNeeded(lines, maxStack);
    if !HasRoomFor(slotsNeeded, free) {
      return GiveResult(GiveDeferred, 0);
    }

    result := GiveLines(engine, lines, maxStack);
  }

  // The pre-flight's sum.
  method SlotsNeeded(lines: seq<Line>, maxStack: StackSizes) returns (slots: int)
    ensures slots == SlotsForOrder(lines, maxStack)
  {
    slots := 0;
    for i := 0 to |lines|
      invariant slots + SlotsForOrder(lines[i..], maxStack) == SlotsForOrder(lines, maxStack)
    {
      assert lines[i..][0] == lines[i] && lines[i..][1..] == lines[i + 1..];
      slots := slots + SlotsForLine(lines[i].quantity, maxStack(lines[i].item), lines[i].isBlueprint);
    }
  }

  // The give loop: stops at the first line that is not given in full.
  method GiveLines(engine: Engine, lines: seq<Line>, maxStack: StackSizes) returns (result: GiveResult)
    requires lines != [] && forall i :: 0 <= i < |lines| ==> lines[i].quantity >= 1
    requires engine.Fresh()
    modifies engine
    ensures result.status == Delivered || result.status == PartiallyDelivered || result.status == GiveFailed
    ensures result.status == Delivered <==> !engine.trouble
    ensures result.status == PartiallyDelivered <==> engine.trouble && engine.touched
    ensures result.status == GiveFailed ==> !engine.touched && engine.given == 0
    ensures result.status == Delivered ==> engine.given == TotalUnits(lines) == result.unitsDelivered
    ensures engine.given <= TotalUnits(lines) && result.unitsDelivered <= engine.given
    ensures engine.asks <= AsksFor(lines, maxStack, |lines|)
    ensures result.status == Delivered ==> engine.asks == AsksFor(lines, maxStack, |lines|)
  {
    var anyMutation, units := false, 0;
    for i := 0 to |lines|
      invariant units == engine.given == TotalUnits(lines) - TotalUnits(lines[i..])
      invariant anyMutation == engine.touched && !engine.trouble
      invariant i > 0 ==> anyMutation
      invariant engine.asks == AsksFor(lines, maxStack, i)
    {
      assert lines[i..][0] == lines[i] && lines[i..][1..] == lines[i + 1..];
      var line := lines[i];
      AsksPrefix(lines, maxStack, i + 1, |lines|);
      var given, faulted, any := GiveLine(engine, line, maxStack(line.item));
      anyMutation := anyMutation || any;
      units := units + given;
      if faulted || given < line.quantity {
        var partial := anyMutation || given > 0;
        return GiveResult(if partial then PartiallyDelivered else GiveFailed, units);
      }
    }
    assert lines[|lines|..] == [];
    return GiveResult(Delivered, units);
  }

  // One line, in the mode its stack size asks for.
  method GiveLine(engine: Engine, line: Line, maxStack: int) returns (given: int, faulted: bool, anyMutation: bool)
    requires line.quantity >= 1 && !engine.trouble
    modifies engine
    ensures 0 <= given <= line.quantity && old(engine.given) + given <= engine.given <= old(engine.given) + line.quantity
    ensures engine.touched == (old(engine.touched) || anyMutation) && (given > 0 ==> anyMutation)
    ensures !anyMutation ==> engine.given == old(engine.given)
    ensures given == line.quantity && !faulted <==> !engine.trouble
    ensures engine.asks <= old(engine.asks) + AsksOf(line, maxStack)
    ensures !engine.trouble ==> engine.asks == old(engine.asks) + AsksOf(line, maxStack)
  {
    given, faulted, anyMutation := 0, false, false;
    var inventoryValid := engine.InventoryIsValid();
    if !inventoryValid {
      faulted := true;
    } else if ChooseGiveMode(maxStack, line.isBlueprint) == PerUnit {
      given, faulted, anyMutation := GivePerUnit(engine, line);
    } else {
      anyMutation := true;
      var returned, delta;
      faulted, returned, delta := engine.IncrementItemTemplateQuantity(line.item, line.quantity);
      if !faulted {
        var larger := if delta > returned then delta else returned;
        given := if larger >= line.quantity then line.quantity else if larger > 0 then larger else 0;
      }
    }
  }
}
