/**
 Applying a plan row of the dino catalog to the live product (apply-core.ts of the dino
 catalog). It differs from the item one in its columns, in what a kept legacy row may have
 written, in when an image is replaced, and in that it has no row the owner switched off.
 */
module DinoApply {
  import opened CatalogApply
  import opened CatalogDelivery
  import opened Options

  datatype Row = Row(
    productId: Option<int>,
    externalKey: string,
    source: Source,
    action: Action,
    name: string,
    description: Option<string>,
    blueprint: string,
    package: string,
    command: string,
    level: Option<real>,
    price: Option<real>,
    priceBasis: string,
    levelBasis: string,
    categoryName: Option<string>,
    wikiPage: Option<string>,
    sortOrder: Option<real>,
    code: string,
    reason: string)

  // ---------------------------------------------------------------- targets

  // The spawn command is made of the blueprint and the level; it is a field of the row here.
  function BuildPayload(row: Row, level: real, price: real, plannedAt: string): ColumnValue {
    Obj([
      Member("schemaVersion", Num(1.0)),
      Member("source", Str("iris-dino-catalog")),
      Member("sourceKey", Str(row.externalKey)),
      Member("type", Str("dino")),
      Member("definition", Obj([
        Member("Type", Str("dino")), Member("Blueprint", Str(row.blueprint)), Member("Level", Num(level)),
        Member("Price", Num(price)), Member("Neutered", Bool(false)), Member("Description", Str(row.name))])),
      Member("spawn", Obj([
        Member("blueprint", Str(row.blueprint)), Member("level", Num(level)), Member("forceTame", Bool(true)),
        Member("neutered", Bool(false)), Member("command", Str(row.command))])),
      Member("review", Obj([
        Member("status", Str("approved")), Member("priceBasis", Str(row.priceBasis)), Member("levelBasis", Str(row.levelBasis)),
        Member("wikiPage", OptionalText(row.wikiPage)), Member("plannedAt", Str(plannedAt))]))])
  }

  // None is the error of a sellable row without level, price or category.
  function TargetSellable(row: Row, ctx: Context): Option<Columns> {
    var categoryId := CategoryOf(row.categoryName, ctx);
    if row.level.None? || row.price.None? || categoryId.None? then None
    else
      Some(map[
        Name := Str(row.name),
        Description := OptionalText(row.description),
        Price := Num(row.price.value),
        CategoryId := Num(categoryId.value as real),
        ItemBlueprint := Str(row.blueprint),
        RequiredCapabilities := Arr([Str("delivery.dino.catalog.v1")]),
        DeliveryPayload := BuildPayload(row, row.level.value, row.price.value, ctx.planGeneratedAt),
        IsActive := Bool(true),
        SortOrder := Num(if row.sortOrder.Some? then row.sortOrder.value else 0.0)])
  }

  // The columns a row asks for, before its image; None is an error.
  function Target(row: Row, current: Option<Product>, ctx: Context): Option<Columns>
    requires current.Some? || row.action == Create
  {
    match row.action
    case Keep =>
      if row.source == Legacy then
        Some(if row.description.Some? && row.description.value != "" && Str(row.description.value) != Read(current.value, Description)
             then map[Description := Str(row.description.value)] else map[])
      else
        var target := TargetSellable(row, ctx);
        if target.None? then None else Some(target.value[IsActive := Read(current.value, IsActive)])
    case Activate => TargetSellable(row, ctx)
    case Create => TargetSellable(row, ctx)
    case Deactivate => Some(map[IsActive := Bool(false)])
    case LeaveInactive =>
      var payload := Read(current.value, DeliveryPayload);
      if row.source == Draft && !Active(current.value) && !ReviewIsCurrent(ReviewOf(payload), row.code, row.reason) then
        Some(map[DeliveryPayload := WithReview(payload, row.code, row.reason, ctx)])
      else Some(map[])
  }

  // ---------------------------------------------------------------- images

  function ArtworkFor(row: Row, ctx: Context): (r: Option<Artwork>)
    ensures r.Some? ==> r.value.imageUrl != ""
  {
    if ctx.artwork.None? then None else LookupShared(ctx.artwork.value, row.externalKey, row.package)
  }

  // None leaves the image as it is. An image meant for this very product replaces any other.
  function ChosenImage(row: Row, current: Option<Product>, artwork: Option<Artwork>): Option<string> {
    var url := ImageOf(current);
    if artwork.None? || url == Some(artwork.value.imageUrl) then None
    else if row.action != Keep || url.None? || url.value == "" then Some(artwork.value.imageUrl)
    else if current.Some? && artwork.value.productIds.Some? && current.value.id in artwork.value.productIds.value then
      Some(artwork.value.imageUrl)
    else None
  }

  function ImageFor(row: Row, current: Option<Product>, ctx: Context): Option<string> {
    if IsSellable(row.action) then ChosenImage(row, current, ArtworkFor(row, ctx)) else None
  }

  // ---------------------------------------------------------------- the change

  // A created dino is one tame; these columns are written with it and never again.
  const ONE_DINO: Columns := map[Quantity := Num(1.0), Quality := Num(0.0), IsBlueprint := Bool(false)]

  // The whole of what a row asks for.
  function FullTarget(row: Row, current: Option<Product>, ctx: Context): Columns
    requires current.Some? || row.action == Create
    requires Target(row, current, ctx).Some?
  {
    var target := WithImage(Target(row, current, ctx).value, ImageFor(row, current, ctx));
    if current.None? then target + ONE_DINO else target
  }

  function Change(row: Row, current: Option<Product>, ctx: Context): Outcome {
    if current.Some? && (current.value.productType != "dino" || current.value.externalKey != Some(row.externalKey)) then Refused
    else if current.None? && row.action != Create then Done(Skip, row.productId, map[])
    else if Target(row, current, ctx).None? then Refused
    else
      var data := Written(current, FullTarget(row, current, ctx));
      if current.None? then Done(Created, None, data)
      else Done(if data == map[] then Noop else Update, Some(current.value.id), data)
  }

  // ---------------------------------------------------------------- the second run

  ghost predicate Applies(row: Row, current: Option<Product>, ctx: Context) {
    && (current.Some? ==> IsStored(current.value))
    && Change(row, current, ctx).Done? && Change(row, current, ctx).kind != Skip
  }

  function After(row: Row, current: Option<Product>, ctx: Context, newId: int): Product
    requires Change(row, current, ctx).Done?
  {
    Projected("dino", current, Change(row, current, ctx).data, newId, row.externalKey)
  }

  predicate DinoColumn(c: Column) {
    c != ImageUrl && c != Quantity && c != Quality && c != IsBlueprint
  }

  lemma SellableIsSet(row: Row, ctx: Context)
    requires TargetSellable(row, ctx).Some?
    ensures NullsStay(TargetSellable(row, ctx).value)
    ensures forall c: Column :: c in TargetSellable(row, ctx).value <==> DinoColumn(c)
  {
    forall c: Column
      ensures c in TargetSellable(row, ctx).value <==> DinoColumn(c)
    {
      match c
      case _ =>
    }
  }

  lemma TargetsAreSet(row: Row, current: Option<Product>, ctx: Context)
    requires current.Some? || row.action == Create
    requires current.Some? ==> IsStored(current.value)
    requires Target(row, current, ctx).Some?
    ensures NullsStay(FullTarget(row, current, ctx))
    ensures current.None? ==> forall c: Column :: c != ImageUrl ==> c in FullTarget(row, current, ctx)
  {
    TargetNullsStay(row, current, ctx);
    FullNullsStay(Target(row, current, ctx).value, ImageFor(row, current, ctx));
    if current.None? {
      SellableIsSet(row, ctx);
    }
  }

  lemma FullNullsStay(target: Columns, image: Option<string>)
    requires NullsStay(target)
    ensures NullsStay(WithImage(target, image)) && NullsStay(WithImage(target, image) + ONE_DINO)
  {
    if image.Some? {
      OneMoreStays(target, ImageUrl, Str(image.value));
    }
  }

  lemma TargetNullsStay(row: Row, current: Option<Product>, ctx: Context)
    requires current.Some? || row.action == Create
    requires current.Some? ==> IsStored(current.value)
    requires Target(row, current, ctx).Some?
    ensures NullsStay(Target(row, current, ctx).value)
  {
    match row.action
    case Keep =>
      if row.source != Legacy {
        SellableIsSet(row, ctx);
        OneMoreStays(TargetSellable(row, ctx).value, IsActive, Read(current.value, IsActive));
      }
    case Activate => SellableIsSet(row, ctx);
    case Create => SellableIsSet(row, ctx);
    case Deactivate =>
    case LeaveInactive =>
  }

  lemma AfterHolds(row: Row, current: Option<Product>, ctx: Context, newId: int)
    requires Applies(row, current, ctx)
    ensures (current.Some? || row.action == Create) && Target(row, current, ctx).Some?
    ensures Holds(After(row, current, ctx, newId), FullTarget(row, current, ctx), current)
  {
    TargetsAreSet(row, current, ctx);
    ProjectionHolds("dino", current, FullTarget(row, current, ctx), newId, row.externalKey);
  }

  lemma OnlyDinoColumns(row: Row, current: Option<Product>, ctx: Context)
    requires current.Some? || row.action == Create
    requires Target(row, current, ctx).Some?
    ensures forall c :: c in Target(row, current, ctx).value ==> DinoColumn(c)
  {
    if TargetSellable(row, ctx).Some? {
      SellableIsSet(row, ctx);
    }
  }

  lemma TargetSettles(row: Row, current: Option<Product>, ctx: Context, next: Product)
    requires current.Some? || row.action == Create
    requires current.Some? ==> IsStored(current.value)
    requires Target(row, current, ctx).Some? && Holds(next, FullTarget(row, current, ctx), current)
    ensures Target(row, Some(next), ctx).Some? && Settled(next, Target(row, Some(next), ctx).value)
  {
    HasTarget(row, current, ctx, next);
    match row.action
    case LeaveInactive => ReviewTargetSettles(row, current.value, ctx, next);
    case Deactivate =>
    case Keep => KeepSettles(row, current.value, ctx, next);
    case _ =>
  }

  lemma HasTarget(row: Row, current: Option<Product>, ctx: Context, next: Product)
    requires current.Some? || row.action == Create
    requires Target(row, current, ctx).Some? && Holds(next, FullTarget(row, current, ctx), current)
    ensures Target(row, Some(next), ctx).Some?
    ensures forall c :: c in Target(row, current, ctx).value ==> next.columns[c] == Target(row, current, ctx).value[c]
  {
    TargetInFull(row, current, ctx);
  }

  // Neither the image nor the columns of a created dino take the place of a column asked for.
  lemma TargetInFull(row: Row, current: Option<Product>, ctx: Context)
    requires current.Some? || row.action == Create
    requires Target(row, current, ctx).Some?
    ensures forall c :: c in Target(row, current, ctx).value ==>
                          c in FullTarget(row, current, ctx) &&
                          FullTarget(row, current, ctx)[c] == Target(row, current, ctx).value[c]
  {
    OnlyDinoColumns(row, current, ctx);
  }

  lemma ReviewTargetSettles(row: Row, current: Product, ctx: Context, next: Product)
    requires row.action == LeaveInactive && IsStored(current)
    requires Holds(next, FullTarget(row, Some(current), ctx), Some(current))
    ensures Settled(next, Target(row, Some(next), ctx).value)
  {
    ReviewSettles(Read(current, DeliveryPayload), row.code, row.reason, ctx);
  }

  lemma KeepSettles(row: Row, current: Product, ctx: Context, next: Product)
    requires row.action == Keep && IsStored(current)
    requires Target(row, Some(current), ctx).Some? && Holds(next, FullTarget(row, Some(current), ctx), Some(current))
    ensures Target(row, Some(next), ctx).Some? && Settled(next, Target(row, Some(next), ctx).value)
  {
    HasTarget(row, Some(current), ctx, next);
    if row.source != Legacy {
      SellableIsSet(row, ctx);
    }
  }

  lemma ImageSettles(row: Row, current: Option<Product>, ctx: Context, next: Product)
    requires current.Some? || row.action == Create
    requires current.Some? ==> IsStored(current.value) && next.id == current.value.id
    requires Target(row, current, ctx).Some? && Holds(next, FullTarget(row, current, ctx), current)
    ensures ImageFor(row, Some(next), ctx) == None
  {
    OnlyDinoColumns(row, current, ctx);
    assert ImageUrl in FullTarget(row, current, ctx) <==> ImageFor(row, current, ctx).Some?;
  }

  /** A second run on the product as the first left it is a noop, whatever the row. */
  lemma SecondRunIsNoop(row: Row, current: Option<Product>, ctx: Context, newId: int)
    requires Applies(row, current, ctx)
    ensures var next := After(row, current, ctx, newId);
            Change(row, Some(next), ctx) == Done(Noop, Some(next.id), map[])
  {
    var next := After(row, current, ctx, newId);
    AfterHolds(row, current, ctx, newId);
    TargetSettles(row, current, ctx, next);
    ImageSettles(row, current, ctx, next);
    SettledIsQuiet(next, Target(row, Some(next), ctx).value);
  }

  // ---------------------------------------------------------------- what is written

  // A row whose payload the catalog writes.
  predicate WritesPayload(row: Row) {
    IsSellable(row.action) && !(row.action == Keep && row.source == Legacy)
  }

  lemma SellableIsTheRow(row: Row, ctx: Context)
    requires TargetSellable(row, ctx).Some?
    ensures row.price.Some? && row.level.Some? && row.categoryName.Some? && row.categoryName.value in ctx.categoryIds
    ensures var t := TargetSellable(row, ctx).value;
            && (forall c: Column :: DinoColumn(c) ==> c in t)
            && t[Name] == Str(row.name) && t[Description] == OptionalText(row.description) && t[Price] == Num(row.price.value)
            && t[ItemBlueprint] == Str(row.blueprint) && t[CategoryId] == Num(ctx.categoryIds[row.categoryName.value] as real)
            && t[RequiredCapabilities] == Arr([Str("delivery.dino.catalog.v1")])
            && t[SortOrder] == Num(if row.sortOrder.Some? then row.sortOrder.value else 0.0) && t[IsActive] == Bool(true)
            && t[DeliveryPayload] == BuildPayload(row, row.level.value, row.price.value, ctx.planGeneratedAt)
  {
    SellableIsSet(row, ctx);
  }

  lemma TargetIsSellable(row: Row, current: Option<Product>, ctx: Context)
    requires current.Some? || row.action == Create
    requires WritesPayload(row) && Target(row, current, ctx).Some?
    ensures TargetSellable(row, ctx).Some?
    ensures Target(row, current, ctx).value ==
            if row.action == Keep then TargetSellable(row, ctx).value[IsActive := Read(current.value, IsActive)] else TargetSellable(row, ctx).value
  {
  }

  lemma AfterIsSellable(row: Row, current: Option<Product>, ctx: Context, newId: int)
    requires Applies(row, current, ctx) && WritesPayload(row)
    ensures TargetSellable(row, ctx).Some?
    ensures forall c: Column :: DinoColumn(c) && (c != IsActive || row.action != Keep) ==>
              c in TargetSellable(row, ctx).value && Read(After(row, current, ctx, newId), c) == TargetSellable(row, ctx).value[c]
    ensures row.action == Keep ==> Read(After(row, current, ctx, newId), IsActive) == Read(current.value, IsActive)
  {
    var next := After(row, current, ctx, newId);
    AfterHolds(row, current, ctx, newId);
    HasTarget(row, current, ctx, next);
    TargetIsSellable(row, current, ctx);
    SellableIsSet(row, ctx);
    forall c: Column | DinoColumn(c) && (c != IsActive || row.action != Keep)
      ensures c in TargetSellable(row, ctx).value && Read(next, c) == TargetSellable(row, ctx).value[c]
    {
      assert c in Target(row, current, ctx).value;
    }
    assert row.action == Keep ==> IsActive in Target(row, current, ctx).value;
  }

  /**
   A dino whose row the catalog writes has the row's name, price, blueprint, category,
   description and place afterwards, whatever it had before; it is on sale when the row puts it
   there, and else stays as it was.
   */
  lemma ProductIsTheRow(row: Row, current: Option<Product>, ctx: Context, newId: int)
    requires Applies(row, current, ctx) && WritesPayload(row)
    ensures row.price.Some? && row.level.Some? && row.categoryName.Some? && row.categoryName.value in ctx.categoryIds
    ensures var next := After(row, current, ctx, newId);
            && Read(next, Name) == Str(row.name)
            && Read(next, Description) == OptionalText(row.description)
            && Read(next, Price) == Num(row.price.value)
            && Read(next, ItemBlueprint) == Str(row.blueprint)
            && Read(next, CategoryId) == Num(ctx.categoryIds[row.categoryName.value] as real)
            && Read(next, RequiredCapabilities) == Arr([Str("delivery.dino.catalog.v1")])
            && Read(next, SortOrder) == Num(if row.sortOrder.Some? then row.sortOrder.value else 0.0)
            && Read(next, IsActive) == (if row.action == Keep then Read(current.value, IsActive) else Bool(true))
  {
    AfterIsSellable(row, current, ctx, newId);
    SellableIsTheRow(row, ctx);
    assert DinoColumn(Name) && DinoColumn(Description) && DinoColumn(Price) && DinoColumn(ItemBlueprint) && DinoColumn(CategoryId);
    assert DinoColumn(RequiredCapabilities) && DinoColumn(SortOrder) && DinoColumn(IsActive);
  }

  /** A created dino is one tame. */
  lemma NewDinoIsOne(row: Row, ctx: Context, newId: int)
    requires Applies(row, None, ctx)
    ensures var next := After(row, None, ctx, newId);
            Read(next, Quantity) == Num(1.0) && Read(next, Quality) == Num(0.0) && Read(next, IsBlueprint) == Bool(false)
  {
    AfterHolds(row, None, ctx, newId);
  }

  lemma PayloadIsWritten(row: Row, current: Option<Product>, ctx: Context, newId: int)
    requires Applies(row, current, ctx) && WritesPayload(row)
    ensures row.level.Some? && row.price.Some?
    ensures Read(After(row, current, ctx, newId), DeliveryPayload) == BuildPayload(row, row.level.value, row.price.value, ctx.planGeneratedAt)
  {
    AfterIsSellable(row, current, ctx, newId);
    SellableIsTheRow(row, ctx);
  }

  // What the stored payload says of the dino.
  lemma DinoOfPayload(row: Row, level: real, price: real, plannedAt: string)
    ensures var payload := BuildPayload(row, level, price, plannedAt);
            var definition, spawn := Property(payload, "definition"), Property(payload, "spawn");
            && definition.Some? && spawn.Some? && spawn.value.Obj?
            && Property(definition.value, "Blueprint") == Some(Str(row.blueprint))
            && Property(definition.value, "Level") == Some(Num(level)) && Property(definition.value, "Price") == Some(Num(price))
            && Property(spawn.value, "blueprint") == Some(Str(row.blueprint)) && Property(spawn.value, "level") == Some(Num(level))
            && Property(spawn.value, "neutered") == Some(Bool(false)) && Property(spawn.value, "forceTame") == Some(Bool(true))
  {
    var fields := BuildPayload(row, level, price, plannedAt).fields;
    GetAt(fields, "definition", 4);
    GetAt(fields, "spawn", 5);
    var definition, spawn := fields[4].value.fields, fields[5].value.fields;
    GetAt(definition, "Blueprint", 1);
    GetAt(definition, "Level", 2);
    GetAt(definition, "Price", 3);
    GetAt(spawn, "blueprint", 0);
    GetAt(spawn, "level", 1);
    GetAt(spawn, "forceTame", 2);
    GetAt(spawn, "neutered", 3);
  }

  /**
   It delivers what it sells: both definitions in the stored payload name the product's own
   blueprint and the row's level, and one its price.
   */
  lemma PayloadMatchesColumns(row: Row, current: Option<Product>, ctx: Context, newId: int)
    requires Applies(row, current, ctx) && WritesPayload(row)
    ensures row.level.Some?
    ensures var next := After(row, current, ctx, newId);
            var definition, spawn := Property(Read(next, DeliveryPayload), "definition"), Property(Read(next, DeliveryPayload), "spawn");
            && definition.Some? && spawn.Some? && spawn.value.Obj?
            && Property(definition.value, "Blueprint") == Property(spawn.value, "blueprint") == Some(Read(next, ItemBlueprint))
            && Property(definition.value, "Level") == Property(spawn.value, "level") == Some(Num(row.level.value))
            && Property(definition.value, "Price") == Some(Read(next, Price))
            && Property(spawn.value, "forceTame") == Some(Bool(true)) && Property(spawn.value, "neutered") == Some(Bool(false))
  {
    ProductIsTheRow(row, current, ctx, newId);
    PayloadIsWritten(row, current, ctx, newId);
    DinoOfPayload(row, row.level.value, row.price.value, ctx.planGeneratedAt);
  }

  lemma NamesInPayload(row: Row, level: real, price: real, plannedAt: string)
    ensures var payload := BuildPayload(row, level, price, plannedAt);
            && Property(payload, "sourceKey") == Some(Str(row.externalKey)) && Property(payload, "type") == Some(Str("dino"))
            && Inner(payload, "definition", "Description") == Some(Str(row.name)) && Inner(payload, "spawn", "command") == Some(Str(row.command))
  {
    var fields := BuildPayload(row, level, price, plannedAt).fields;
    GetAt(fields, "sourceKey", 2);
    GetAt(fields, "type", 3);
    GetAt(fields, "definition", 4);
    GetAt(fields, "spawn", 5);
    GetAt(fields[4].value.fields, "Description", 5);
    GetAt(fields[5].value.fields, "command", 4);
  }

  lemma ApprovalOfPayload(row: Row, level: real, price: real, plannedAt: string)
    ensures var payload := BuildPayload(row, level, price, plannedAt);
            && Inner(payload, "review", "status") == Some(Str("approved"))
            && Inner(payload, "review", "priceBasis") == Some(Str(row.priceBasis))
            && Inner(payload, "review", "levelBasis") == Some(Str(row.levelBasis))
            && Inner(payload, "review", "wikiPage") == Some(OptionalText(row.wikiPage))
            && Inner(payload, "review", "plannedAt") == Some(Str(plannedAt))
  {
    var fields := BuildPayload(row, level, price, plannedAt).fields;
    GetAt(fields, "review", 6);
    var review := fields[6].value.fields;
    GetAt(review, "status", 0);
    GetAt(review, "priceBasis", 1);
    GetAt(review, "levelBasis", 2);
    GetAt(review, "wikiPage", 3);
    GetAt(review, "plannedAt", 4);
  }

  /** The payload names the row it comes from, and the reasons for its price and level. */
  lemma PayloadRecordsTheRow(row: Row, current: Option<Product>, ctx: Context, newId: int)
    requires Applies(row, current, ctx) && WritesPayload(row)
    ensures var payload := Read(After(row, current, ctx, newId), DeliveryPayload);
            && Property(payload, "sourceKey") == Some(Str(row.externalKey)) && Property(payload, "type") == Some(Str("dino"))
            && Inner(payload, "definition", "Description") == Some(Str(row.name)) && Inner(payload, "spawn", "command") == Some(Str(row.command))
            && Inner(payload, "review", "status") == Some(Str("approved"))
            && Inner(payload, "review", "priceBasis") == Some(Str(row.priceBasis))
            && Inner(payload, "review", "levelBasis") == Some(Str(row.levelBasis))
            && Inner(payload, "review", "wikiPage") == Some(OptionalText(row.wikiPage))
            && Inner(payload, "review", "plannedAt") == Some(Str(ctx.planGeneratedAt))
  {
    PayloadIsWritten(row, current, ctx, newId);
    NamesInPayload(row, row.level.value, row.price.value, ctx.planGeneratedAt);
    ApprovalOfPayload(row, row.level.value, row.price.value, ctx.planGeneratedAt);
  }

  /**
   From the row to the player: an order for such a dino spawns the row's blueprint at the row's
   level exactly when the level is a whole number from 1 to 10000 and no quote or space is at
   either end of the blueprint; what is wrong is named otherwise.
   */
  lemma SoldIsDelivered(row: Row, current: Option<Product>, ctx: Context, newId: int, c: Coercion)
    requires Applies(row, current, ctx) && WritesPayload(row)
    ensures row.level.Some?
    ensures ResolveDinoDelivery(After(row, current, ctx, newId), c) ==
            if !IsSafeInteger(row.level.value) || row.level.value < 1.0 || row.level.value > 10000.0 then BadLevel
            else if !Clean(row.blueprint) then BadBlueprint
            else DinoToSpawn(row.blueprint, row.level.value, false)
  {
    var next := After(row, current, ctx, newId);
    ProductIsTheRow(row, current, ctx, newId);
    PayloadMatchesColumns(row, current, ctx, newId);
    SpawnsWhatItSays(next, Property(Read(next, DeliveryPayload), "spawn").value, row.blueprint, row.level.value, c);
  }

  /** A dino goes on sale only by a row that puts it there, and off sale only by one that takes it off. */
  lemma OnSaleAfterExactly(row: Row, current: Product, ctx: Context, newId: int)
    requires Applies(row, Some(current), ctx)
    ensures Active(After(row, Some(current), ctx, newId)) <==>
            row.action == Activate || row.action == Create || (row.action != Deactivate && Active(current))
  {
    AfterHolds(row, Some(current), ctx, newId);
    SaleLeftAlone(row, current, ctx);
  }

  lemma SaleLeftAlone(row: Row, current: Product, ctx: Context)
    requires IsStored(current) && Target(row, Some(current), ctx).Some?
    ensures var full := FullTarget(row, Some(current), ctx);
            if row.action == Activate || row.action == Create then IsActive in full && full[IsActive] == Bool(true)
            else if row.action == Deactivate then IsActive in full && full[IsActive] == Bool(false)
            else IsActive in full ==> full[IsActive] == Read(current, IsActive)
  {
    if TargetSellable(row, ctx).Some? {
      SellableIsSet(row, ctx);
    }
  }

  /**
   The image a dino has afterwards. A kept row gives up an image of its own only for one meant
   for this very product.
   */
  lemma ImageAfterExactly(row: Row, current: Option<Product>, ctx: Context, newId: int)
    requires Applies(row, current, ctx)
    ensures var art, own := ArtworkFor(row, ctx), ImageOf(current);
            var takes :=
              && art.Some?
              && (row.action == Create || row.action == Activate || row.action == Keep)
              && (row.action == Keep && own.Some? && own.value != "" ==>
                    art.value.productIds.Some? && current.value.id in art.value.productIds.value);
            ImageOf(Some(After(row, current, ctx, newId))) == if takes then Some(art.value.imageUrl) else own
  {
    AfterHolds(row, current, ctx, newId);
    OnlyDinoColumns(row, current, ctx);
    assert ImageUrl in FullTarget(row, current, ctx) <==> ImageFor(row, current, ctx).Some?;
  }

  /** An image listed for the key wins over one for the package. */
  lemma BestArtwork(row: Row, ctx: Context)
    requires ctx.artwork.Some?
    ensures var index := ctx.artwork.value;
            var forKey := row.externalKey in index.byExternalKey && index.byExternalKey[row.externalKey].imageUrl != "";
            var forPackage := row.package in index.byPackage && index.byPackage[row.package].imageUrl != "";
            ArtworkFor(row, ctx) ==
            (if forKey then Some(index.byExternalKey[row.externalKey])
             else if forPackage then Some(index.byPackage[row.package])
             else None)
  {
  }

  /**
   The review of a draft that is not sellable is on record afterwards, and every other member
   of its payload is as it was.
   */
  lemma ReviewIsOnRecord(row: Row, current: Product, ctx: Context, newId: int, key: string)
    requires row.action == LeaveInactive && row.source == Draft && !Active(current) && Applies(row, Some(current), ctx)
    ensures var before, after := Read(current, DeliveryPayload), Read(After(row, Some(current), ctx, newId), DeliveryPayload);
            && ReviewIsCurrent(ReviewOf(after), row.code, row.reason)
            && (before.Obj? && key != "review" ==> Property(after, key) == Property(before, key))
            && (if ReviewIsCurrent(ReviewOf(before), row.code, row.reason) then after == before
                else Property(ReviewOf(after), "reviewedAt") == Some(Str(ctx.reviewedAt)) &&
                     Property(ReviewOf(after), "plan") == Some(Str(ctx.planGeneratedAt)))
  {
    AfterHolds(row, Some(current), ctx, newId);
    TargetInFull(row, Some(current), ctx);
    var payload := Read(current, DeliveryPayload);
    ReviewSettles(payload, row.code, row.reason, ctx);
    ReviewIsDated(payload, row.code, row.reason, ctx);
    if payload.Obj? {
      GetSet(payload.fields, "review", Obj(Reviewed(Spread(ReviewOf(payload)), row.code, row.reason, ctx)), key);
    }
  }

  /** A kept legacy row takes the row's description whenever it has one. */
  lemma KeptDescription(row: Row, current: Product, ctx: Context, newId: int)
    requires row.source == Legacy && row.action == Keep && Applies(row, Some(current), ctx)
    ensures Read(After(row, Some(current), ctx, newId), Description) ==
            if row.description.Some? && row.description.value != "" then Str(row.description.value) else Read(current, Description)
  {
    AfterHolds(row, Some(current), ctx, newId);
    TargetInFull(row, Some(current), ctx);
  }

  /**
   A row is refused exactly when the product is no dino or has another key, or when it must
   write a product without level, price or a known category; a missing product that is not
   created is skipped.
   */
  lemma RefusedExactly(row: Row, current: Option<Product>, ctx: Context)
    ensures var stranger := current.Some? && (current.value.productType != "dino" || current.value.externalKey != Some(row.externalKey));
            var skipped := current.None? && row.action != Create;
            var category := row.categoryName.Some? && row.categoryName.value != "" && row.categoryName.value in ctx.categoryIds &&
              ctx.categoryIds[row.categoryName.value] != 0;
            && (Change(row, current, ctx) == Refused <==>
                  stranger || (!skipped && WritesPayload(row) && (row.level.None? || row.price.None? || !category)))
            && (Change(row, current, ctx).Done? ==> (Change(row, current, ctx).kind == Skip <==> skipped))
  {
  }

  /**
   A row that takes a product off sale writes that alone, one that leaves it off sale at most the
   payload of an inactive draft, and a skipped row nothing.
   */
  lemma OffSaleRowsWriteNoMore(row: Row, current: Option<Product>, ctx: Context)
    requires Change(row, current, ctx).Done?
    ensures row.action == Deactivate ==>
              Change(row, current, ctx).data == (if current.Some? && Read(current.value, IsActive) != Bool(false) then map[IsActive := Bool(false)] else map[])
    ensures row.action == LeaveInactive ==>
              Change(row, current, ctx).data.Keys <=
              if row.source == Draft && current.Some? && !Active(current.value) then {DeliveryPayload} else {}
    ensures Change(row, current, ctx).kind == Skip ==> Change(row, current, ctx).data == map[]
  {
  }

  /** Of a legacy row only the description and the image are ever written, and it may be switched off. */
  lemma LegacyRowsAreTheOwners(row: Row, current: Option<Product>, ctx: Context)
    requires row.source == Legacy && row.action != Activate && row.action != Create
    requires Change(row, current, ctx).Done?
    ensures Change(row, current, ctx).data.Keys <=
            (if row.action == Keep then {Description, ImageUrl} else if row.action == Deactivate then {IsActive} else {})
    ensures IsActive in Change(row, current, ctx).data ==> Change(row, current, ctx).data[IsActive] == Bool(false)
  {
  }

  /**
   An inactive dino goes on sale exactly when its row activates or creates it. Nothing marks a
   row the catalog put on sale before, so unlike an item a dino the owner switched off comes
   back with every such apply.
   */
  lemma SwitchedOffComesBack(row: Row, current: Product, ctx: Context, newId: int)
    requires IsStored(current) && !Active(current)
    requires Change(row, Some(current), ctx).Done?
    ensures Active(After(row, Some(current), ctx, newId)) <==> row.action == Activate || row.action == Create
  {
    AfterHolds(row, Some(current), ctx, newId);
    SaleAskedFor(row, current, ctx);
  }

  // Of all rows on an inactive dino only these two ask for it to be on sale.
  lemma SaleAskedFor(row: Row, current: Product, ctx: Context)
    requires IsStored(current) && !Active(current)
    requires Target(row, Some(current), ctx).Some?
    ensures var full := FullTarget(row, Some(current), ctx);
            IsActive in full && full[IsActive] == Bool(true) <==> row.action == Activate || row.action == Create
  {
    if TargetSellable(row, ctx).Some? {
      SellableIsSet(row, ctx);
    }
  }

  // ---------------------------------------------------------------- the writer's code

  method ComputeChange(row: Row, current: Option<Product>, ctx: Context) returns (change: Outcome)
    ensures change == Change(row, current, ctx)
  {
    if current.Some? {
      if current.value.productType != "dino" {
        return Refused;
      }
      if current.value.externalKey != Some(row.externalKey) {
        return Refused;
      }
    } else if row.action != Create {
      return Done(Skip, row.productId, map[]);
    }

    var target: Columns := map[];
    match row.action {
      case Keep =>
        if row.description.Some? && row.description.value != "" && Str(row.description.value) != Read(current.value, Description) {
          target := target[Description := Str(row.description.value)];
        }
        if row.source != Legacy {
          var sellable := TargetSellable(row, ctx);
          if sellable.None? {
            return Refused;
          }
          target := sellable.value[IsActive := Read(current.value, IsActive)];
        }
      case Deactivate =>
        target := map[IsActive := Bool(false)];
      case LeaveInactive =>
        if row.source == Draft && !Active(current.value) {
          var payload := Read(current.value, DeliveryPayload);
          if !ReviewIsCurrent(ReviewOf(payload), row.code, row.reason) {
            target := target[DeliveryPayload := WithReview(payload, row.code, row.reason, ctx)];
          }
        }
      case _ =>
        var sellable := TargetSellable(row, ctx);
        if sellable.None? {
          return Refused;
        }
        target := sellable.value;
    }

    var imageUrl: Option<string> := None;
    if IsSellable(row.action) {
      imageUrl := ChosenImage(row, current, ArtworkFor(row, ctx));
    }
    if imageUrl.Some? {
      target := target[ImageUrl := Str(imageUrl.value)];
    }

    if current.None? {
      target := target + ONE_DINO;
      if ImageUrl !in target {
        target := target[ImageUrl := Null];
      }
      return Done(Created, None, target);
    }
    var data, before, after := Diff(current.value, target);
    return Done(if data == map[] then Noop else Update, Some(current.value.id), data);
  }
}
