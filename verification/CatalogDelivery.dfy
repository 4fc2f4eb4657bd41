/**
 What the backend delivers for a product of the catalogs (itemCatalogDelivery.ts,
 dinoCatalogDelivery.ts), and the gate the catalogs put before a sale (lib.ts of both,
 simulateBackendItemDelivery and simulateBackendDinoDelivery).

 Numbers are exact. What `Number` and `String` make of a value that is no number or text is a
 parameter. The stat overrides and the extras some servers support are not part of this model.
 */
module CatalogDelivery {
  import opened CatalogApply
  import opened Options

  // JavaScript's Number and String on values that are neither a number, a truth value nor null.
  datatype Coercion = Coercion(number: ColumnValue -> Option<real>, text: ColumnValue -> string)

  // v ?? otherwise
  function Or(v: Option<ColumnValue>, otherwise: ColumnValue): ColumnValue {
    if v.None? || v == Some(Null) then otherwise else v.value
  }

  // None is NaN.
  function NumberOf(v: ColumnValue, c: Coercion): Option<real> {
    match v
    case Null => Some(0.0)
    case Bool(b) => Some(if b then 1.0 else 0.0)
    case Num(n) => Some(n)
    case _ => c.number(v)
  }

  function StringOf(v: ColumnValue, c: Coercion): string {
    if v.Str? then v.s else c.text(v)
  }

  predicate Truthy(v: Option<ColumnValue>) {
    v.Some? &&
    match v.value
    case Null => false
    case Bool(b) => b
    case Num(n) => n != 0.0
    case Str(s) => s != ""
    case _ => true
  }

  function AtLeast(low: real, x: real): real {
    if x < low then low else x
  }

  function AllAtLeast(low: real, x: Option<real>): Option<real> {
    if x.None? then None else Some(AtLeast(low, x.value))
  }

  function Times(amount: real, units: nat): real {
    amount * units as real
  }

  // ---------------------------------------------------------------- blueprint texts

  function DropFront(s: string, unwanted: char -> bool): string {
    if s != "" && unwanted(s[0]) then DropFront(s[1..], unwanted) else s
  }

  function DropBack(s: string, unwanted: char -> bool): string {
    if s != "" && unwanted(s[|s| - 1]) then DropBack(s[..|s| - 1], unwanted) else s
  }

  predicate IsQuote(c: char) {
    c == '"'
  }

  // Without the quotes around it, and then without the spaces around that.
  function CleanBlueprint(s: string): string {
    DropBack(DropFront(DropBack(DropFront(s, IsQuote), IsQuote), IsSpace), IsSpace)
  }

  // Its first and last characters are neither quotes nor spaces.
  predicate Clean(s: string) {
    s != "" && !IsQuote(s[0]) && !IsSpace(s[0]) && !IsQuote(s[|s| - 1]) && !IsSpace(s[|s| - 1])
  }

  lemma {:induction false} DropFrontShortens(s: string, unwanted: char -> bool)
    ensures |DropFront(s, unwanted)| <= |s|
    ensures s != "" && unwanted(s[0]) ==> |DropFront(s, unwanted)| < |s|
    decreases |s|
  {
    if s != "" && unwanted(s[0]) {
      DropFrontShortens(s[1..], unwanted);
    }
  }

  lemma {:induction false} DropBackShortens(s: string, unwanted: char -> bool)
    ensures |DropBack(s, unwanted)| <= |s|
    ensures s != "" && unwanted(s[|s| - 1]) ==> |DropBack(s, unwanted)| < |s|
    decreases |s|
  {
    if s != "" && unwanted(s[|s| - 1]) {
      DropBackShortens(s[..|s| - 1], unwanted);
    }
  }

  /** A blueprint text is delivered as it is exactly when no quote or space is at either end. */
  lemma CleanExactly(s: string)
    requires s != ""
    ensures CleanBlueprint(s) == s <==> Clean(s)
  {
    var a := DropFront(s, IsQuote);
    var b := DropBack(a, IsQuote);
    var d := DropFront(b, IsSpace);
    DropFrontShortens(s, IsQuote);
    DropBackShortens(a, IsQuote);
    DropFrontShortens(b, IsSpace);
    DropBackShortens(d, IsSpace);
  }

  // ---------------------------------------------------------------- items

  datatype ItemLine = ItemLine(blueprint: Option<string>, quantity: Option<real>, quality: Option<real>, isBlueprint: bool)

  // definition.Items of a stored payload.
  function Entries(payload: ColumnValue): Option<seq<ColumnValue>> {
    var definition := Property(payload, "definition");
    var items := if definition.Some? then Property(definition.value, "Items") else None;
    if items.Some? && items.value.Arr? then Some(items.value.items) else None
  }

  function LineOf(entry: ColumnValue, units: nat, c: Coercion): ItemLine {
    var amount := AllAtLeast(1.0, NumberOf(Or(Property(entry, "Amount"), Num(1.0)), c));
    ItemLine(Some(CleanBlueprint(StringOf(Or(Property(entry, "Blueprint"), Str("")), c))),
             if amount.Some? then Some(Times(amount.value, units)) else None,
             AllAtLeast(0.0, NumberOf(Or(Property(entry, "Quality"), Num(0.0)), c)),
             Truthy(Property(entry, "ForceBlueprint")))
  }

  predicate Usable(line: ItemLine) {
    line.blueprint != Some("") && line.quantity.Some? && IsSafeInteger(line.quantity.value)
  }

  function Lines(entries: seq<ColumnValue>, units: nat, c: Coercion): seq<ItemLine> {
    if entries == [] then []
    else
      var line := LineOf(entries[0], units, c);
      (if Usable(line) then [line] else []) + Lines(entries[1..], units, c)
  }

  /** The item lines of an order for so many units of a product. */
  function ResolveItemDelivery(p: Product, units: nat, c: Coercion): seq<ItemLine> {
    var entries := Entries(Read(p, DeliveryPayload));
    var configured := if entries.Some? then Lines(entries.value, units, c) else [];
    if configured != [] then configured
    else
      var quantity := Read(p, Quantity);
      [ItemLine(TextOf(Read(p, ItemBlueprint)),
                if quantity.Num? then Some(Times(quantity.n, units)) else None,
                if Read(p, Quality).Num? then Some(Read(p, Quality).n) else None,
                Read(p, IsBlueprint) == Bool(true))]
  }

  lemma OneLine(entry: ColumnValue, units: nat, c: Coercion)
    ensures Lines([entry], units, c) == if Usable(LineOf(entry, units, c)) then [LineOf(entry, units, c)] else []
  {
    assert [entry][1..] == [];
  }

  // One entry that gives a whole number of a blueprint.
  lemma OneEntry(entry: ColumnValue, blueprint: string, amount: real, quality: real, units: nat, c: Coercion)
    requires Property(entry, "Blueprint") == Some(Str(blueprint)) && Property(entry, "Amount") == Some(Num(amount))
    requires Property(entry, "Quality") == Some(Num(quality)) && Property(entry, "ForceBlueprint") == Some(Bool(false))
    requires Clean(blueprint) && amount >= 1.0 && IsSafeInteger(Times(amount, units)) && quality >= 0.0
    ensures Lines([entry], units, c) == [ItemLine(Some(blueprint), Some(Times(amount, units)), Some(quality), false)]
  {
    OneLine(entry, units, c);
    CleanExactly(blueprint);
  }

  /** The gate for a product the item catalog writes; `canonical` says which blueprint texts are canonical. */
  predicate StrictGate(p: Product, canonical: string -> bool) {
    var entries := Entries(Read(p, DeliveryPayload));
    && p.productType == "item"
    && entries.Some? && |entries.value| == 1
    && Read(p, RequiredCapabilities) == Arr([Str("delivery.item.v1")])
    && var blueprint, amount, quality := Property(entries.value[0], "Blueprint"), Property(entries.value[0], "Amount"), Property(entries.value[0], "Quality");
       && blueprint == Some(Read(p, ItemBlueprint)) && Read(p, ItemBlueprint).Str? && canonical(Read(p, ItemBlueprint).s)
       && amount == Some(Read(p, Quantity)) && amount.value.Num? && IsSafeInteger(amount.value.n) && amount.value.n >= 1.0
       && quality.Some? && quality.value.Num? && quality.value.n >= 0.0 && Read(p, Quality) == Num(QualityColumn(quality.value.n))
       && Property(entries.value[0], "ForceBlueprint") == Some(Bool(false)) && Read(p, IsBlueprint) == Bool(false)
  }

  // ---------------------------------------------------------------- dinos

  datatype DinoResult = BadLevel | BadBlueprint | DinoToSpawn(blueprint: string, level: real, neutered: bool)

  /** The dino of an order for a product; its spawn definition must name the product's blueprint. */
  function ResolveDinoDelivery(p: Product, c: Coercion): DinoResult {
    var payload := Read(p, DeliveryPayload);
    var configured := Or(Property(payload, "spawn"), Or(Property(payload, "definition"), Obj([])));
    var level := NumberOf(Or(Property(configured, "level"), Or(Property(configured, "Level"), Num(1.0))), c);
    if level.None? || !IsSafeInteger(level.value) || level.value < 1.0 || level.value > 10000.0 then BadLevel
    else
      var blueprint := CleanBlueprint(
        StringOf(Or(Property(configured, "blueprint"), Or(Property(configured, "Blueprint"), Or(Some(Read(p, ItemBlueprint)), Str("")))), c));
      if blueprint == "" || Str(blueprint) != Read(p, ItemBlueprint) then BadBlueprint
      else DinoToSpawn(blueprint, level.value, Truthy(Some(Or(Property(configured, "neutered"), Or(Property(configured, "Neutered"), Bool(false))))))
  }

  // A spawn definition that names the product's blueprint.
  lemma SpawnsWhatItSays(p: Product, spawn: ColumnValue, blueprint: string, level: real, c: Coercion)
    requires Property(Read(p, DeliveryPayload), "spawn") == Some(spawn) && spawn.Obj? && Read(p, ItemBlueprint) == Str(blueprint)
    requires Property(spawn, "blueprint") == Some(Str(blueprint)) && Property(spawn, "level") == Some(Num(level))
    requires Property(spawn, "neutered") == Some(Bool(false))
    ensures ResolveDinoDelivery(p, c) ==
            if !IsSafeInteger(level) || level < 1.0 || level > 10000.0 then BadLevel
            else if !Clean(blueprint) then BadBlueprint
            else DinoToSpawn(blueprint, level, false)
  {
    if blueprint != "" {
      CleanExactly(blueprint);
    }
  }
}
