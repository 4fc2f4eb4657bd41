/**
 Applying a plan row of the item catalog to the live product (apply-core.ts of the item
 catalog). The canonical blueprint of a row and its package are fields of it.
 */
module ItemApply {
  import opened CatalogApply
  import opened CatalogDelivery
  import opened Options

  datatype Row = Row(
    productId: Option<int>,
    externalKey: string,
    source: Source,
    action: Action,
    name: string,
    description: Option<string>,
    blueprint: string,
    package: string,
    quantity: Option<real>,
    quality: Option<real>,
    price: Option<real>,
    priceBasis: string,
    quantityBasis: string,
    qualityBasis: string,
    categoryName: Option<string>,
    wikiPage: Option<string>,
    sortOrder: Option<real>,
    code: string,
    reason: string,
    imageHold: bool)

  const SEED_KEY_PREFIX := "product-id:"
  const ITEM_CATALOG_SOURCE := "iris-item-catalog"

  predicate IsOwnerRow(row: Row) {
    row.source == Legacy || row.source == Seed
  }

  // ---------------------------------------------------------------- targets

  function BuildPayload(row: Row, quantity: real, quality: real, price: real, plannedAt: string): ColumnValue {
    Obj([
      Member("schemaVersion", Num(1.0)),
      Member("source", Str(ITEM_CATALOG_SOURCE)),
      Member("sourceKey", Str(row.externalKey)),
      Member("type", Str("item")),
      Member("definition", Obj([
        Member("Type", Str("item")),
        Member("Items", Arr([Obj([
          Member("Blueprint", Str(row.blueprint)), Member("Amount", Num(quantity)),
          Member("Quality", Num(quality)), Member("ForceBlueprint", Bool(false))])])),
        Member("Price", Num(price)),
        Member("Description", Str(row.name))])),
      Member("review", Obj([
        Member("status", Str("approved")),
        Member("priceBasis", Str(row.priceBasis)),
        Member("quantityBasis", Str(row.quantityBasis)),
        Member("qualityBasis", Str(row.qualityBasis)),
        Member("wikiPage", OptionalText(row.wikiPage)),
        Member("plannedAt", Str(plannedAt))]))])
  }

  // None is the error of a sellable row without quantity, price or category.
  function TargetSellable(row: Row, ctx: Context): Option<Columns> {
    var categoryId := CategoryOf(row.categoryName, ctx);
    if row.quantity.None? || row.price.None? || categoryId.None? then None
    else
      var quality := if row.quality.Some? then row.quality.value else 0.0;
      Some(map[
        Name := Str(row.name),
        Description := OptionalText(row.description),
        Price := Num(row.price.value),
        CategoryId := Num(categoryId.value as real),
        ItemBlueprint := Str(row.blueprint),
        Quantity := Num(row.quantity.value),
        Quality := Num(QualityColumn(quality)),
        IsBlueprint := Bool(false),
        RequiredCapabilities := Arr([Str("delivery.item.v1")]),
        DeliveryPayload := BuildPayload(row, row.quantity.value, quality, row.price.value, ctx.planGeneratedAt),
        IsActive := Bool(true),
        SortOrder := Num(if row.sortOrder.Some? then row.sortOrder.value else 0.0)])
  }

  // The columns a row asks for, before its image; None is an error.
  function Target(row: Row, current: Option<Product>, ctx: Context): Option<Columns>
    requires current.Some? || row.action == Create
  {
    match row.action
    case Keep =>
      if IsOwnerRow(row) then
        if row.description.Some? && row.description.value != "" && IsBlank(Read(current.value, Description)) then
          Some(map[Description := Str(row.description.value)])
        else Some(map[])
      else
        var target := TargetSellable(row, ctx);
        if target.None? then None else Some(target.value[IsActive := Read(current.value, IsActive)])
    case Activate => TargetSellable(row, ctx)
    case Create => TargetSellable(row, ctx)
    case Deactivate => Some(map[IsActive := Bool(false)])
    case LeaveInactive =>
      var payload := Read(current.value, DeliveryPayload);
      if row.source == Draft && !Active(current.value) && !ReviewIsCurrent(ReviewOf(payload), row.code, row.reason) then
        Some(map[DeliveryPayload := WithReview(payload, row.code, row.reason, ctx)])
      else Some(map[])
  }

  // ---------------------------------------------------------------- images

  // The manifest's image for the product id wins over the shared entries.
  function LookupArtwork(index: ArtworkIndex, row: Row, productId: Option<int>): (r: Option<Artwork>)
    ensures r.Some? ==> r.value.imageUrl != ""
  {
    if productId.Some? && productId.value in index.byProductId && index.byProductId[productId.value] != "" then
      Some(Artwork(index.byProductId[productId.value], Some({productId.value})))
    else LookupShared(index, row.externalKey, row.package)
  }

  function ArtworkFor(row: Row, current: Option<Product>, ctx: Context): (r: Option<Artwork>)
    ensures r.Some? ==> r.value.imageUrl != ""
  {
    if ctx.artwork.None? then None
    else LookupArtwork(ctx.artwork.value, row, if current.Some? then Some(current.value.id) else row.productId)
  }

  // None leaves the image as it is.
  function ChosenImage(row: Row, current: Option<Product>, artwork: Option<Artwork>, placeholders: set<string>): Option<string> {
    var url := ImageOf(current);
    if artwork.None? || url == Some(artwork.value.imageUrl) then None
    else if row.action != Keep || url.None? || url.value == "" then Some(artwork.value.imageUrl)
    else
      var targeted := current.Some? && artwork.value.productIds.Some? && current.value.id in artwork.value.productIds.value;
      if targeted && url.value in placeholders then Some(artwork.value.imageUrl) else None
  }

  // Only for rows that are, or stay, on sale; held for an owner row whose name does not match.
  function ImageFor(row: Row, current: Option<Product>, ctx: Context): Option<string> {
    if IsSellable(row.action) && (row.action != Keep || (current.Some? && Active(current.value))) &&
       !(row.imageHold && IsOwnerRow(row)) then
      ChosenImage(row, current, ArtworkFor(row, current, ctx), ctx.placeholders)
    else None
  }

  // ---------------------------------------------------------------- the change

  predicate StartsWith(s: string, prefix: string) {
    prefix <= s
  }

  predicate MatchesRow(row: Row, p: Product) {
    if StartsWith(row.externalKey, SEED_KEY_PREFIX) then p.externalKey == None && row.productId == Some(p.id)
    else p.externalKey == Some(row.externalKey)
  }

  // Put on sale by this catalog before, and switched off since.
  predicate IsOwnerDeactivated(row: Row, p: Product) {
    && !Active(p) && !IsOwnerRow(row) && IsSellable(row.action)
    && Property(Read(p, DeliveryPayload), "source") == Some(Str(ITEM_CATALOG_SOURCE))
  }

  function Change(row: Row, current: Option<Product>, ctx: Context): Outcome {
    if current.Some? && (current.value.productType != "item" || !MatchesRow(row, current.value)) then Refused
    else if current.None? && row.action != Create then Done(Skip, row.productId, map[])
    else if current.Some? && IsOwnerDeactivated(row, current.value) then Done(Skip, Some(current.value.id), map[])
    else
      var target := Target(row, current, ctx);
      if target.None? then Refused
      else
        var full := WithImage(target.value, ImageFor(row, current, ctx));
        var data := Written(current, full);
        if current.None? then Done(Created, None, data)
        else Done(if data == map[] then Noop else Update, Some(current.value.id), data)
  }

  // ---------------------------------------------------------------- the second run

  // The row and the product it is applied to, as the writer finds them.
  ghost predicate Applies(row: Row, current: Option<Product>, ctx: Context) {
    && (current.Some? ==> IsStored(current.value))
    && Change(row, current, ctx).Done? && Change(row, current, ctx).kind != Skip
  }

  // A created product's key is not a seed key, and its new id has no image of its own.
  ghost predicate FreshId(row: Row, ctx: Context, newId: int) {
    && !StartsWith(row.externalKey, SEED_KEY_PREFIX)
    && (ctx.artwork.Some? ==> LookupArtwork(ctx.artwork.value, row, Some(newId)) == LookupArtwork(ctx.artwork.value, row, row.productId))
  }

  function After(row: Row, current: Option<Product>, ctx: Context, newId: int): Product
    requires Change(row, current, ctx).Done?
  {
    Projected("item", current, Change(row, current, ctx).data, newId, row.externalKey)
  }

  lemma SellableIsSet(row: Row, ctx: Context)
    requires TargetSellable(row, ctx).Some?
    ensures NullsStay(TargetSellable(row, ctx).value)
    ensures forall c: Column :: c in TargetSellable(row, ctx).value <==> c != ImageUrl
  {
    forall c: Column
      ensures c in TargetSellable(row, ctx).value <==> c != ImageUrl
    {
      match c
      case _ =>
    }
  }

  // The whole of what a row asks for.
  function FullTarget(row: Row, current: Option<Product>, ctx: Context): Columns
    requires current.Some? || row.action == Create
    requires Target(row, current, ctx).Some?
  {
    WithImage(Target(row, current, ctx).value, ImageFor(row, current, ctx))
  }

  lemma TargetsAreSet(row: Row, current: Option<Product>, ctx: Context)
    requires current.Some? || row.action == Create
    requires current.Some? ==> IsStored(current.value)
    requires Target(row, current, ctx).Some?
    ensures NullsStay(FullTarget(row, current, ctx))
    ensures current.None? ==> forall c: Column :: c != ImageUrl ==> c in FullTarget(row, current, ctx)
  {
    var target := Target(row, current, ctx).value;
    assert NullsStay(target) by {
      match row.action
      case Keep =>
        if !IsOwnerRow(row) {
          SellableIsSet(row, ctx);
          OneMoreStays(TargetSellable(row, ctx).value, IsActive, Read(current.value, IsActive));
        }
      case Activate => SellableIsSet(row, ctx);
      case Create => SellableIsSet(row, ctx);
      case Deactivate =>
      case LeaveInactive =>
    }
    if ImageFor(row, current, ctx).Some? {
      OneMoreStays(target, ImageUrl, Str(ImageFor(row, current, ctx).value));
    }
    if current.None? {
      SellableIsSet(row, ctx);
    }
  }

  lemma AfterHolds(row: Row, current: Option<Product>, ctx: Context, newId: int)
    requires Applies(row, current, ctx)
    ensures (current.Some? || row.action == Create) && Target(row, current, ctx).Some?
    ensures Holds(After(row, current, ctx, newId), FullTarget(row, current, ctx), current)
  {
    TargetsAreSet(row, current, ctx);
    ProjectionHolds("item", current, FullTarget(row, current, ctx), newId, row.externalKey);
  }

  lemma TargetSettles(row: Row, current: Option<Product>, ctx: Context, next: Product)
    requires current.Some? || row.action == Create
    requires current.Some? ==> IsStored(current.value)
    requires Target(row, current, ctx).Some? && Holds(next, FullTarget(row, current, ctx), current)
    ensures Target(row, Some(next), ctx).Some? && Settled(next, Target(row, Some(next), ctx).value)
  {
    HasTarget(row, current, ctx, next);
    match row.action
    case LeaveInactive => ReviewTargetSettles(row, current.value, ctx, next);
    case Deactivate =>
    case _ =>
      if !(row.action == Keep && IsOwnerRow(row)) {
        SellableSettles(row, current, ctx, next);
      }
  }

  lemma HasTarget(row: Row, current: Option<Product>, ctx: Context, next: Product)
    requires current.Some? || row.action == Create
    requires Target(row, current, ctx).Some? && Holds(next, FullTarget(row, current, ctx), current)
    ensures Target(row, Some(next), ctx).Some?
    ensures forall c :: c in Target(row, current, ctx).value && c != ImageUrl ==> next.columns[c] == Target(row, current, ctx).value[c]
  {
  }

  lemma SellableSettles(row: Row, current: Option<Product>, ctx: Context, next: Product)
    requires current.Some? || row.action == Create
    requires IsSellable(row.action) && !(row.action == Keep && IsOwnerRow(row))
    requires Target(row, current, ctx).Some? && Holds(next, FullTarget(row, current, ctx), current)
    ensures Target(row, Some(next), ctx).Some? && Settled(next, Target(row, Some(next), ctx).value)
  {
    HasTarget(row, current, ctx, next);
    SellableIsSet(row, ctx);
  }

  lemma ReviewTargetSettles(row: Row, current: Product, ctx: Context, next: Product)
    requires row.action == LeaveInactive && IsStored(current)
    requires Holds(next, FullTarget(row, Some(current), ctx), Some(current))
    ensures Settled(next, Target(row, Some(next), ctx).value)
  {
    ReviewSettles(Read(current, DeliveryPayload), row.code, row.reason, ctx);
  }

  lemma ImageSettles(row: Row, current: Option<Product>, ctx: Context, next: Product)
    requires current.Some? || row.action == Create
    requires current.Some? ==> IsStored(current.value) && next.id == current.value.id
    requires current.None? ==> ArtworkFor(row, Some(next), ctx) == ArtworkFor(row, None, ctx)
    requires Target(row, current, ctx).Some? && Holds(next, FullTarget(row, current, ctx), current)
    ensures ImageFor(row, Some(next), ctx) == None
  {
    var image := ImageFor(row, current, ctx);
    ImageUrlNotTargeted(row, current, ctx);
    if row.action == Keep {
      ActiveStays(row, current.value, ctx, next);
    }
  }

  lemma ImageUrlNotTargeted(row: Row, current: Option<Product>, ctx: Context)
    requires current.Some? || row.action == Create
    requires Target(row, current, ctx).Some?
    ensures ImageUrl !in Target(row, current, ctx).value
  {
    if TargetSellable(row, ctx).Some? {
      SellableIsSet(row, ctx);
    }
  }

  lemma ActiveStays(row: Row, current: Product, ctx: Context, next: Product)
    requires row.action == Keep && IsStored(current)
    requires Target(row, Some(current), ctx).Some? && Holds(next, FullTarget(row, Some(current), ctx), Some(current))
    ensures Active(next) == Active(current)
  {
    if TargetSellable(row, ctx).Some? {
      SellableIsSet(row, ctx);
    }
  }

  lemma DeactivatedOnlyByKeep(row: Row, current: Option<Product>, ctx: Context, next: Product)
    requires current.Some? || row.action == Create
    requires current.Some? ==> IsStored(current.value)
    requires Target(row, current, ctx).Some? && Holds(next, FullTarget(row, current, ctx), current)
    requires IsSellable(row.action) && !IsOwnerRow(row)
    ensures IsOwnerDeactivated(row, next) <==> row.action == Keep && !Active(next)
  {
    SellableIsSet(row, ctx);
    SellableSource(row, ctx);
    assert next.columns[DeliveryPayload] == TargetSellable(row, ctx).value[DeliveryPayload];
    assert row.action != Keep ==> next.columns[IsActive] == Bool(true);
  }

  lemma SellableSource(row: Row, ctx: Context)
    requires TargetSellable(row, ctx).Some?
    ensures DeliveryPayload in TargetSellable(row, ctx).value
    ensures Property(TargetSellable(row, ctx).value[DeliveryPayload], "source") == Some(Str(ITEM_CATALOG_SOURCE))
  {
    PayloadSource(row, row.quantity.value, if row.quality.Some? then row.quality.value else 0.0, row.price.value, ctx.planGeneratedAt);
  }

  lemma PayloadSource(row: Row, quantity: real, quality: real, price: real, plannedAt: string)
    ensures Property(BuildPayload(row, quantity, quality, price, plannedAt), "source") == Some(Str(ITEM_CATALOG_SOURCE))
  {
    var fields := BuildPayload(row, quantity, quality, price, plannedAt).fields;
    assert |fields[0].key| == 13;
    GetSecond(fields, "source");
  }

  lemma GetSecond(fields: seq<Member>, key: string)
    requires |fields| >= 2 && fields[0].key != key && fields[1].key == key
    ensures Get(fields, key) == Some(fields[1].value)
  {
    assert fields[1..][0] == fields[1];
  }

  lemma StillMatches(row: Row, current: Option<Product>, ctx: Context, newId: int)
    requires Applies(row, current, ctx) && (current.None? ==> FreshId(row, ctx, newId))
    ensures var next := After(row, current, ctx, newId);
            && next.productType == "item" && MatchesRow(row, next)
            && (current.Some? ==> next.id == current.value.id)
            && (current.None? ==> ArtworkFor(row, Some(next), ctx) == ArtworkFor(row, None, ctx))
  {
  }

  /**
   A second run on the product as the first left it writes nothing. It reports a noop, except
   that a catalog row kept while inactive is now taken for one the owner switched off.
   */
  lemma SecondRunWritesNothing(row: Row, current: Option<Product>, ctx: Context, newId: int)
    requires Applies(row, current, ctx)
    requires current.None? ==> FreshId(row, ctx, newId)
    ensures var next := After(row, current, ctx, newId);
            var second := Change(row, Some(next), ctx);
            && second.Done? && second.data == map[]
            && second.kind == (if row.action == Keep && !IsOwnerRow(row) && !Active(current.value) then Skip else Noop)
  {
    var next := After(row, current, ctx, newId);
    AfterHolds(row, current, ctx, newId);
    StillMatches(row, current, ctx, newId);
    TargetSettles(row, current, ctx, next);
    ImageSettles(row, current, ctx, next);
    if IsSellable(row.action) && !IsOwnerRow(row) {
      DeactivatedOnlyByKeep(row, current, ctx, next);
      if row.action == Keep {
        ActiveStays(row, current.value, ctx, next);
      }
    }
    SettledIsQuiet(next, Target(row, Some(next), ctx).value);
  }

  function ImageUrlOf(artwork: Option<Artwork>): Option<string> {
    if artwork.Some? then Some(artwork.value.imageUrl) else None
  }

  /**
   After a create the same holds exactly when the key is not a seed key, which the second run
   refuses, and the new id has no image of its own: it finds none, or the one that was written
   (or images are held for the row).
   */
  lemma SecondRunAfterCreate(row: Row, ctx: Context, newId: int)
    requires Applies(row, None, ctx)
    ensures var next := After(row, None, ctx, newId);
            var second := Change(row, Some(next), ctx);
            && (second.Done? <==> !StartsWith(row.externalKey, SEED_KEY_PREFIX))
            && (second.Done? ==>
                  (second.data == map[] <==>
                   (row.imageHold && IsOwnerRow(row)) || ArtworkFor(row, Some(next), ctx) == None ||
                   ImageUrlOf(ArtworkFor(row, Some(next), ctx)) == ImageUrlOf(ArtworkFor(row, None, ctx))))
  {
    var next := After(row, None, ctx, newId);
    AfterHolds(row, None, ctx, newId);
    TargetSettles(row, None, ctx, next);
    CreatedIsOnSale(row, ctx, next);
    var columns := Target(row, Some(next), ctx).value;
    ImageUrlNotTargeted(row, Some(next), ctx);
    ImageAlone(next, columns, ImageFor(row, Some(next), ctx));
  }

  // A created product is active, carries its manifest image, and would take another one.
  lemma CreatedIsOnSale(row: Row, ctx: Context, next: Product)
    requires row.action == Create && Target(row, None, ctx).Some? && Holds(next, FullTarget(row, None, ctx), None)
    ensures Active(next) && ImageOf(Some(next)) == (if row.imageHold && IsOwnerRow(row) then None else ImageUrlOf(ArtworkFor(row, None, ctx)))
  {
    SellableIsSet(row, ctx);
    HasTarget(row, None, ctx, next);
  }

  lemma ImageAlone(p: Product, columns: Columns, image: Option<string>)
    requires Settled(p, columns) && ImageUrl !in columns
    requires image.Some? ==> Read(p, ImageUrl) != Str(image.value)
    ensures Differences(p, WithImage(columns, image)) == map[] <==> image == None
  {
    if image.Some? {
      assert ImageUrl in Differences(p, WithImage(columns, image));
    }
  }

  // A row whose payload the catalog writes.
  predicate WritesPayload(row: Row) {
    IsSellable(row.action) && !(row.action == Keep && IsOwnerRow(row))
  }

  function WrittenPayload(row: Row, ctx: Context): ColumnValue
    requires TargetSellable(row, ctx).Some?
  {
    SellableIsSet(row, ctx);
    TargetSellable(row, ctx).value[DeliveryPayload]
  }

  // The product as it is read back, when the table returns `stored` for the payload.
  function ReadBack(p: Product, stored: ColumnValue): Product {
    p.(columns := p.columns[DeliveryPayload := stored])
  }

  /**
   When the table does not return the payload's text as it was written, the second run writes
   it again, and nothing else: it is quiet exactly when the text comes back unchanged.
   */
  lemma PayloadMustComeBackAsWritten(row: Row, current: Option<Product>, ctx: Context, newId: int, stored: ColumnValue)
    requires Applies(row, current, ctx) && WritesPayload(row)
    requires current.None? ==> FreshId(row, ctx, newId)
    requires row.action == Keep ==> Active(current.value)
    ensures var written := Read(After(row, current, ctx, newId), DeliveryPayload);
            var second := Change(row, Some(ReadBack(After(row, current, ctx, newId), stored)), ctx);
            && second.Done?
            && second.data == (if stored == written then map[] else map[DeliveryPayload := written])
            && second.kind == (if stored == written then Noop else Update)
  {
    var next := After(row, current, ctx, newId);
    AfterSale(row, current, ctx, newId);
    ChangeOfBack(row, current, ctx, next, stored);
    AfterIsSellable(row, current, ctx, newId);
  }

  lemma ChangeOfBack(row: Row, current: Option<Product>, ctx: Context, next: Product, stored: ColumnValue)
    requires current.Some? || row.action == Create
    requires WritesPayload(row) && Target(row, current, ctx).Some? && Holds(next, FullTarget(row, current, ctx), current)
    requires next.productType == "item" && MatchesRow(row, next) && Active(next) && ImageFor(row, Some(next), ctx) == None
    ensures TargetSellable(row, ctx).Some?
    ensures Change(row, Some(ReadBack(next, stored)), ctx) ==
            if stored == WrittenPayload(row, ctx) then Done(Noop, Some(next.id), map[])
            else Done(Update, Some(next.id), map[DeliveryPayload := WrittenPayload(row, ctx)])
  {
    TargetOfBack(row, current, ctx, next, stored);
    BackMatches(row, next, ctx, stored);
    assert DeliveryPayload in map[DeliveryPayload := WrittenPayload(row, ctx)];
  }

  // After a row whose payload was written, the product matches the row, is on sale and has its image.
  lemma AfterSale(row: Row, current: Option<Product>, ctx: Context, newId: int)
    requires Applies(row, current, ctx) && WritesPayload(row)
    requires current.None? ==> FreshId(row, ctx, newId)
    requires row.action == Keep ==> Active(current.value)
    ensures (current.Some? || row.action == Create) && Target(row, current, ctx).Some?
    ensures var next := After(row, current, ctx, newId);
            && Holds(next, FullTarget(row, current, ctx), current)
            && next.productType == "item" && MatchesRow(row, next) && Active(next) && ImageFor(row, Some(next), ctx) == None
  {
    var next := After(row, current, ctx, newId);
    AfterHolds(row, current, ctx, newId);
    StillMatches(row, current, ctx, newId);
    ImageSettles(row, current, ctx, next);
    BackIsActive(row, current, ctx, next);
  }

  // Only the payload is read back differently.
  lemma BackMatches(row: Row, next: Product, ctx: Context, stored: ColumnValue)
    requires next.productType == "item" && MatchesRow(row, next) && Active(next) && ImageFor(row, Some(next), ctx) == None
    requires Target(row, Some(ReadBack(next, stored)), ctx).Some?
    ensures var back := ReadBack(next, stored);
            var data := Differences(back, Target(row, Some(back), ctx).value);
            Change(row, Some(back), ctx) == Done(if data == map[] then Noop else Update, Some(back.id), data)
  {
    var back := ReadBack(next, stored);
    assert Active(back) && ImageOf(Some(back)) == ImageOf(Some(next));
    assert ImageFor(row, Some(back), ctx) == None;
  }

  lemma BackIsActive(row: Row, current: Option<Product>, ctx: Context, next: Product)
    requires current.Some? || row.action == Create
    requires current.Some? ==> IsStored(current.value)
    requires WritesPayload(row) && (row.action == Keep ==> Active(current.value))
    requires Target(row, current, ctx).Some? && Holds(next, FullTarget(row, current, ctx), current)
    ensures Active(next)
  {
    SellableIsSet(row, ctx);
    HasTarget(row, current, ctx, next);
  }

  lemma TargetOfBack(row: Row, current: Option<Product>, ctx: Context, next: Product, stored: ColumnValue)
    requires current.Some? || row.action == Create
    requires WritesPayload(row)
    requires Target(row, current, ctx).Some? && Holds(next, FullTarget(row, current, ctx), current)
    ensures var back := ReadBack(next, stored);
            && Target(row, Some(back), ctx).Some? && TargetSellable(row, ctx).Some?
            && Differences(back, Target(row, Some(back), ctx).value) ==
               if stored == WrittenPayload(row, ctx) then map[] else map[DeliveryPayload := WrittenPayload(row, ctx)]
  {
    SellableSettles(row, current, ctx, next);
    SellableIsSet(row, ctx);
    var columns := Target(row, Some(next), ctx).value;
    assert Target(row, Some(ReadBack(next, stored)), ctx) == Some(columns);
    assert columns[DeliveryPayload] == WrittenPayload(row, ctx);
    BackDiffers(next, columns, stored);
  }

  lemma BackDiffers(next: Product, columns: Columns, stored: ColumnValue)
    requires Settled(next, columns) && DeliveryPayload in columns
    ensures Differences(ReadBack(next, stored), columns) ==
            if stored == columns[DeliveryPayload] then map[] else map[DeliveryPayload := columns[DeliveryPayload]]
  {
  }

  /** The same members in another order are another text: a table that sorts keys returns one. */
  lemma OrderOfKeysIsText(row: Row, current: Option<Product>, ctx: Context, newId: int)
    requires Applies(row, current, ctx) && WritesPayload(row)
    ensures var written := Read(After(row, current, ctx, newId), DeliveryPayload);
            && written.Obj? && |written.fields| == 6
            && var fields := written.fields;
               Obj([fields[3], fields[5], fields[1], fields[2], fields[4], fields[0]]) != written
  {
    PayloadIsWritten(row, current, ctx, newId);
    var fields := Read(After(row, current, ctx, newId), DeliveryPayload).fields;
    assert |fields[0].key| == 13 && |fields[3].key| == 4;
  }

  // ---------------------------------------------------------------- what is written

  lemma AfterIsSellable(row: Row, current: Option<Product>, ctx: Context, newId: int)
    requires Applies(row, current, ctx) && WritesPayload(row)
    ensures TargetSellable(row, ctx).Some?
    ensures forall c: Column :: c != ImageUrl && (c != IsActive || row.action != Keep) ==>
              c in TargetSellable(row, ctx).value && Read(After(row, current, ctx, newId), c) == TargetSellable(row, ctx).value[c]
    ensures row.action == Keep ==> Read(After(row, current, ctx, newId), IsActive) == Read(current.value, IsActive)
  {
    var next := After(row, current, ctx, newId);
    AfterHolds(row, current, ctx, newId);
    HasTarget(row, current, ctx, next);
    TargetIsSellable(row, current, ctx);
    SellableIsSet(row, ctx);
    forall c: Column | c != ImageUrl && (c != IsActive || row.action != Keep)
      ensures c in TargetSellable(row, ctx).value && Read(next, c) == TargetSellable(row, ctx).value[c]
    {
      assert c in Target(row, current, ctx).value;
    }
    assert row.action == Keep ==> IsActive in Target(row, current, ctx).value;
  }

  lemma TargetIsSellable(row: Row, current: Option<Product>, ctx: Context)
    requires current.Some? || row.action == Create
    requires WritesPayload(row) && Target(row, current, ctx).Some?
    ensures TargetSellable(row, ctx).Some?
    ensures Target(row, current, ctx).value ==
            if row.action == Keep then TargetSellable(row, ctx).value[IsActive := Read(current.value, IsActive)] else TargetSellable(row, ctx).value
  {
  }

  lemma SellableIsTheRow(row: Row, ctx: Context)
    requires TargetSellable(row, ctx).Some?
    ensures row.price.Some? && row.quantity.Some? && row.categoryName.Some? && row.categoryName.value in ctx.categoryIds
    ensures var t := TargetSellable(row, ctx).value;
            && Name in t && t[Name] == Str(row.name) && Description in t && t[Description] == OptionalText(row.description)
            && Price in t && t[Price] == Num(row.price.value) && Quantity in t && t[Quantity] == Num(row.quantity.value)
            && ItemBlueprint in t && t[ItemBlueprint] == Str(row.blueprint)
            && CategoryId in t && t[CategoryId] == Num(ctx.categoryIds[row.categoryName.value] as real)
  {
  }

  lemma SellableIsTheRest(row: Row, ctx: Context)
    requires TargetSellable(row, ctx).Some?
    ensures row.price.Some? && row.quantity.Some?
    ensures var t := TargetSellable(row, ctx).value;
            && Quality in t
            && t[Quality] == Num(if row.quality.Some? && row.quality.value >= 0.0 && IsSafeInteger(row.quality.value) then row.quality.value else 0.0)
            && IsBlueprint in t && t[IsBlueprint] == Bool(false)
            && RequiredCapabilities in t && t[RequiredCapabilities] == Arr([Str("delivery.item.v1")])
            && SortOrder in t && t[SortOrder] == Num(if row.sortOrder.Some? then row.sortOrder.value else 0.0)
            && IsActive in t && t[IsActive] == Bool(true)
            && DeliveryPayload in t
            && t[DeliveryPayload] == BuildPayload(row, row.quantity.value, if row.quality.Some? then row.quality.value else 0.0,
                                                  row.price.value, ctx.planGeneratedAt)
  {
  }

  lemma PayloadIsWritten(row: Row, current: Option<Product>, ctx: Context, newId: int)
    requires Applies(row, current, ctx) && WritesPayload(row)
    ensures row.quantity.Some? && row.price.Some?
    ensures Read(After(row, current, ctx, newId), DeliveryPayload) ==
            BuildPayload(row, row.quantity.value, if row.quality.Some? then row.quality.value else 0.0, row.price.value, ctx.planGeneratedAt)
  {
    AfterIsSellable(row, current, ctx, newId);
    SellableIsTheRow(row, ctx);
    SellableIsTheRest(row, ctx);
  }

  /**
   A product whose row the catalog writes has the row's name, price, quantity, blueprint,
   category, description, quality and place afterwards, whatever it had before; it is on sale
   when the row puts it there, and else stays as it was.
   */
  lemma ProductIsTheRow(row: Row, current: Option<Product>, ctx: Context, newId: int)
    requires Applies(row, current, ctx) && WritesPayload(row)
    ensures row.price.Some? && row.quantity.Some? && row.categoryName.Some? && row.categoryName.value in ctx.categoryIds
    ensures var next := After(row, current, ctx, newId);
            && Read(next, Name) == Str(row.name)
            && Read(next, Description) == OptionalText(row.description)
            && Read(next, Price) == Num(row.price.value)
            && Read(next, Quantity) == Num(row.quantity.value)
            && Read(next, ItemBlueprint) == Str(row.blueprint)
            && Read(next, CategoryId) == Num(ctx.categoryIds[row.categoryName.value] as real)
            && Read(next, Quality) == Num(if row.quality.Some? && row.quality.value >= 0.0 && IsSafeInteger(row.quality.value) then row.quality.value else 0.0)
            && Read(next, IsBlueprint) == Bool(false)
            && Read(next, RequiredCapabilities) == Arr([Str("delivery.item.v1")])
            && Read(next, SortOrder) == Num(if row.sortOrder.Some? then row.sortOrder.value else 0.0)
            && Read(next, IsActive) == (if row.action == Keep then Read(current.value, IsActive) else Bool(true))
  {
    AfterIsSellable(row, current, ctx, newId);
    SellableIsTheRow(row, ctx);
    SellableIsTheRest(row, ctx);
  }

  // The only entry of the payload, with what it says.
  lemma EntryOfPayload(row: Row, quantity: real, quality: real, price: real, plannedAt: string)
    ensures var payload := BuildPayload(row, quantity, quality, price, plannedAt);
            && Entries(payload).Some? && |Entries(payload).value| == 1
            && var entry := Entries(payload).value[0];
               && Property(entry, "Blueprint") == Some(Str(row.blueprint)) && Property(entry, "Amount") == Some(Num(quantity))
               && Property(entry, "Quality") == Some(Num(quality)) && Property(entry, "ForceBlueprint") == Some(Bool(false))
    ensures var definition := Property(BuildPayload(row, quantity, quality, price, plannedAt), "definition");
            definition.Some? && Property(definition.value, "Price") == Some(Num(price))
  {
    var fields := BuildPayload(row, quantity, quality, price, plannedAt).fields;
    GetAt(fields, "definition", 4);
    var definition := fields[4].value.fields;
    GetAt(definition, "Items", 1);
    GetAt(definition, "Price", 2);
    var entry := definition[1].value.items[0].fields;
    GetAt(entry, "Blueprint", 0);
    GetAt(entry, "Amount", 1);
    GetAt(entry, "Quality", 2);
    GetAt(entry, "ForceBlueprint", 3);
  }

  /**
   It delivers what it sells: the entry of the stored payload asks for the product's own
   blueprint and quantity, and the definition names its price.
   */
  lemma PayloadMatchesColumns(row: Row, current: Option<Product>, ctx: Context, newId: int)
    requires Applies(row, current, ctx) && WritesPayload(row)
    ensures var next := After(row, current, ctx, newId);
            var definition := Property(Read(next, DeliveryPayload), "definition");
            && Entries(Read(next, DeliveryPayload)).Some? && |Entries(Read(next, DeliveryPayload)).value| == 1
            && var entry := Entries(Read(next, DeliveryPayload)).value[0];
               && Property(entry, "Blueprint") == Some(Read(next, ItemBlueprint))
               && Property(entry, "Amount") == Some(Read(next, Quantity))
               && Property(entry, "Quality") == Some(Num(if row.quality.Some? then row.quality.value else 0.0))
               && Property(entry, "ForceBlueprint") == Some(Read(next, IsBlueprint))
               && definition.Some? && Property(definition.value, "Price") == Some(Read(next, Price))
  {
    ProductIsTheRow(row, current, ctx, newId);
    PayloadIsWritten(row, current, ctx, newId);
    EntryOfPayload(row, row.quantity.value, if row.quality.Some? then row.quality.value else 0.0, row.price.value, ctx.planGeneratedAt);
  }

  lemma NamesInPayload(row: Row, quantity: real, quality: real, price: real, plannedAt: string)
    ensures var payload := BuildPayload(row, quantity, quality, price, plannedAt);
            && Property(payload, "sourceKey") == Some(Str(row.externalKey)) && Property(payload, "type") == Some(Str("item"))
            && Inner(payload, "definition", "Description") == Some(Str(row.name))
  {
    var fields := BuildPayload(row, quantity, quality, price, plannedAt).fields;
    GetAt(fields, "sourceKey", 2);
    GetAt(fields, "type", 3);
    GetAt(fields, "definition", 4);
    GetAt(fields[4].value.fields, "Description", 3);
  }

  lemma ApprovalOfPayload(row: Row, quantity: real, quality: real, price: real, plannedAt: string)
    ensures var payload := BuildPayload(row, quantity, quality, price, plannedAt);
            && Inner(payload, "review", "status") == Some(Str("approved"))
            && Inner(payload, "review", "priceBasis") == Some(Str(row.priceBasis))
            && Inner(payload, "review", "quantityBasis") == Some(Str(row.quantityBasis))
            && Inner(payload, "review", "qualityBasis") == Some(Str(row.qualityBasis))
            && Inner(payload, "review", "wikiPage") == Some(OptionalText(row.wikiPage))
            && Inner(payload, "review", "plannedAt") == Some(Str(plannedAt))
  {
    var fields := BuildPayload(row, quantity, quality, price, plannedAt).fields;
    GetAt(fields, "review", 5);
    var review := fields[5].value.fields;
    GetAt(review, "status", 0);
    GetAt(review, "priceBasis", 1);
    GetAt(review, "quantityBasis", 2);
    GetAt(review, "qualityBasis", 3);
    GetAt(review, "wikiPage", 4);
    GetAt(review, "plannedAt", 5);
  }

  /** The payload names the row it comes from, and the reasons for its price, quantity and quality. */
  lemma PayloadRecordsTheRow(row: Row, current: Option<Product>, ctx: Context, newId: int)
    requires Applies(row, current, ctx) && WritesPayload(row)
    ensures var payload := Read(After(row, current, ctx, newId), DeliveryPayload);
            && Property(payload, "sourceKey") == Some(Str(row.externalKey)) && Property(payload, "type") == Some(Str("item"))
            && Inner(payload, "definition", "Description") == Some(Str(row.name))
            && Inner(payload, "review", "status") == Some(Str("approved"))
            && Inner(payload, "review", "priceBasis") == Some(Str(row.priceBasis))
            && Inner(payload, "review", "quantityBasis") == Some(Str(row.quantityBasis))
            && Inner(payload, "review", "qualityBasis") == Some(Str(row.qualityBasis))
            && Inner(payload, "review", "wikiPage") == Some(OptionalText(row.wikiPage))
            && Inner(payload, "review", "plannedAt") == Some(Str(ctx.planGeneratedAt))
  {
    PayloadIsWritten(row, current, ctx, newId);
    NamesInPayload(row, row.quantity.value, if row.quality.Some? then row.quality.value else 0.0, row.price.value, ctx.planGeneratedAt);
    ApprovalOfPayload(row, row.quantity.value, if row.quality.Some? then row.quality.value else 0.0, row.price.value, ctx.planGeneratedAt);
  }

  /** The gate passes such a product exactly when the row's own numbers and blueprint do. */
  lemma GatePassesExactly(row: Row, current: Option<Product>, ctx: Context, newId: int, canonical: string -> bool)
    requires Applies(row, current, ctx) && WritesPayload(row)
    ensures row.quantity.Some?
    ensures StrictGate(After(row, current, ctx, newId), canonical) <==>
            && canonical(row.blueprint)
            && IsSafeInteger(row.quantity.value) && row.quantity.value >= 1.0
            && (row.quality.Some? ==> row.quality.value >= 0.0)
  {
    ProductIsTheRow(row, current, ctx, newId);
    PayloadMatchesColumns(row, current, ctx, newId);
  }

  /**
   From the row to the player: an order for so many units of a product that passes the gate
   asks for exactly that many times its quantity, of its blueprint, in one line.
   */
  lemma SoldIsDelivered(row: Row, current: Option<Product>, ctx: Context, newId: int, canonical: string -> bool, units: nat, c: Coercion)
    requires Applies(row, current, ctx) && WritesPayload(row)
    requires StrictGate(After(row, current, ctx, newId), canonical) && Clean(row.blueprint)
    requires units >= 1 && row.quantity.Some? && IsSafeInteger(Times(row.quantity.value, units))
    ensures ResolveItemDelivery(After(row, current, ctx, newId), units, c) ==
            [ItemLine(Some(row.blueprint), Some(Times(row.quantity.value, units)),
                      Some(if row.quality.Some? then row.quality.value else 0.0), false)]
    ensures Times(row.quantity.value, units) == row.quantity.value * units as real
  {
    var next := After(row, current, ctx, newId);
    var quality := if row.quality.Some? then row.quality.value else 0.0;
    PayloadIsWritten(row, current, ctx, newId);
    EntryOfPayload(row, row.quantity.value, quality, row.price.value, ctx.planGeneratedAt);
    GatePassesExactly(row, current, ctx, newId, canonical);
    var entries := Entries(Read(next, DeliveryPayload)).value;
    assert entries == [entries[0]];
    OneEntry(entries[0], row.blueprint, row.quantity.value, quality, units, c);
  }

  // ---------------------------------------------------------------- what is never written

  /**
   A row that takes a product off sale writes that alone, one that leaves it off sale at most the
   payload of an inactive draft, and a skipped row nothing.
   */
  lemma OffSaleRowsWriteNoMore(row: Row, current: Option<Product>, ctx: Context)
    requires Change(row, current, ctx).Done?
    ensures row.action == Deactivate ==>
              Change(row, current, ctx).data == (if current.Some? && Read(current.value, IsActive) != Bool(false) then map[IsActive := Bool(false)] else map[])
    ensures row.action == LeaveInactive ==>
              Change(row, current, ctx).data.Keys <=
              if row.source == Draft && current.Some? && !Active(current.value) then {DeliveryPayload} else {}
    ensures Change(row, current, ctx).kind == Skip ==> Change(row, current, ctx).data == map[]
  {
  }

  /** Price, quantity, quality, name, category and payload of an owner row belong to the owner. */
  lemma OwnerRowsAreTheOwners(row: Row, current: Option<Product>, ctx: Context)
    requires IsOwnerRow(row) && row.action != Activate && row.action != Create
    requires Change(row, current, ctx).Done?
    ensures Change(row, current, ctx).data.Keys <=
            (if row.action == Keep then {Description, ImageUrl} else if row.action == Deactivate then {IsActive} else {})
    ensures IsActive in Change(row, current, ctx).data ==> Change(row, current, ctx).data[IsActive] == Bool(false)
  {
  }

  /**
   The plan must not activate an owner row: whatever two products had in their columns, after
   the activation they are the same but for the image.
   */
  lemma ActivationRewritesAnyRow(row: Row, one: Product, other: Product, ctx: Context, c: Column)
    requires row.action == Activate || row.action == Create
    requires Applies(row, Some(one), ctx) && Applies(row, Some(other), ctx) && c != ImageUrl
    ensures Read(After(row, Some(one), ctx, 0), c) == Read(After(row, Some(other), ctx, 0), c)
  {
    AfterHolds(row, Some(one), ctx, 0);
    AfterHolds(row, Some(other), ctx, 0);
    HasTarget(row, Some(one), ctx, After(row, Some(one), ctx, 0));
    HasTarget(row, Some(other), ctx, After(row, Some(other), ctx, 0));
    SellableIsSet(row, ctx);
  }

  /**
   An inactive product goes on sale exactly when its row activates or creates it and it is not
   one the catalog put on sale before, which the owner must have switched off; an owner row is
   not looked at that way.
   */
  lemma GoesOnSaleExactly(row: Row, current: Product, ctx: Context, newId: int)
    requires IsStored(current) && !Active(current) && Change(row, Some(current), ctx).Done?
    ensures Active(After(row, Some(current), ctx, newId)) <==>
            && (row.action == Activate || row.action == Create)
            && (IsOwnerRow(row) || Property(Read(current, DeliveryPayload), "source") != Some(Str(ITEM_CATALOG_SOURCE)))
  {
    if Change(row, Some(current), ctx).kind != Skip {
      AfterHolds(row, Some(current), ctx, newId);
      OnlySaleActivates(row, current, ctx);
    }
  }

  lemma OnlySaleActivates(row: Row, current: Product, ctx: Context)
    requires IsStored(current) && !Active(current) && Target(row, Some(current), ctx).Some?
    ensures var full := FullTarget(row, Some(current), ctx);
            if row.action == Activate || row.action == Create then IsActive in full && full[IsActive] == Bool(true)
            else IsActive in full ==> full[IsActive] == Bool(false)
  {
    if TargetSellable(row, ctx).Some? {
      SellableIsSet(row, ctx);
    }
  }

  /** A product goes off sale only by a row that says so, and a row that is not applied to a sale leaves it. */
  lemma OnSaleAfterExactly(row: Row, current: Product, ctx: Context, newId: int)
    requires Applies(row, Some(current), ctx)
    ensures Active(After(row, Some(current), ctx, newId)) <==>
            row.action == Activate || row.action == Create || (row.action != Deactivate && Active(current))
  {
    AfterHolds(row, Some(current), ctx, newId);
    SaleLeftAlone(row, current, ctx);
  }

  lemma SaleLeftAlone(row: Row, current: Product, ctx: Context)
    requires IsStored(current) && Target(row, Some(current), ctx).Some?
    ensures var full := FullTarget(row, Some(current), ctx);
            if row.action == Activate || row.action == Create then IsActive in full && full[IsActive] == Bool(true)
            else if row.action == Deactivate then IsActive in full && full[IsActive] == Bool(false)
            else IsActive in full ==> full[IsActive] == Read(current, IsActive)
  {
    if TargetSellable(row, ctx).Some? {
      SellableIsSet(row, ctx);
    }
  }

  /**
   The image a product has afterwards. The manifest's one is taken by a row that is, or stays,
   on sale, unless images are held for it; a kept row gives up an image of its own only for one
   meant for this very product, and only a shared placeholder.
   */
  lemma ImageAfterExactly(row: Row, current: Option<Product>, ctx: Context, newId: int)
    requires Applies(row, current, ctx)
    ensures var art, own := ArtworkFor(row, current, ctx), ImageOf(current);
            var takes :=
              && art.Some?
              && (row.action == Create || row.action == Activate || (row.action == Keep && Active(current.value)))
              && !(row.imageHold && (row.source == Legacy || row.source == Seed))
              && (row.action == Keep && own.Some? && own.value != "" ==>
                    && art.value.productIds.Some? && current.value.id in art.value.productIds.value
                    && own.value in ctx.placeholders);
            ImageOf(Some(After(row, current, ctx, newId))) == if takes then Some(art.value.imageUrl) else own
  {
    var next := After(row, current, ctx, newId);
    AfterHolds(row, current, ctx, newId);
    ImageUrlNotTargeted(row, current, ctx);
    assert ImageUrl in FullTarget(row, current, ctx) <==> ImageFor(row, current, ctx).Some?;
  }

  /** An image listed for the product id wins over one for the key, and that over one for the package. */
  lemma BestArtwork(row: Row, current: Option<Product>, ctx: Context)
    requires ctx.artwork.Some?
    ensures var index, id := ctx.artwork.value, if current.Some? then Some(current.value.id) else row.productId;
            var forId := id.Some? && id.value in index.byProductId && index.byProductId[id.value] != "";
            var forKey := row.externalKey in index.byExternalKey && index.byExternalKey[row.externalKey].imageUrl != "";
            var forPackage := row.package in index.byPackage && index.byPackage[row.package].imageUrl != "";
            ArtworkFor(row, current, ctx) ==
            (if forId then Some(Artwork(index.byProductId[id.value], Some({id.value})))
             else if forKey then Some(index.byExternalKey[row.externalKey])
             else if forPackage then Some(index.byPackage[row.package])
             else None)
  {
  }

  /** A kept owner row gets the row's description exactly when its own is missing or blank. */
  lemma OnlyABlankDescriptionIsFilled(row: Row, current: Product, ctx: Context, newId: int)
    requires IsOwnerRow(row) && row.action == Keep && Applies(row, Some(current), ctx)
    ensures var text := Read(current, Description);
            var blank := text.Str? ==> forall i :: 0 <= i < |text.s| ==> IsSpace(text.s[i]);
            Read(After(row, Some(current), ctx, newId), Description) ==
            if blank && row.description.Some? && row.description.value != "" then Str(row.description.value) else text
  {
    AfterHolds(row, Some(current), ctx, newId);
  }

  /**
   A row is refused exactly when the product is no item or not the one the row means (a seed row
   means its product id, as long as that has no key), or when it must write a product without
   quantity, price or a known category. A missing product that is not created is skipped, and
   so is one the owner switched off.
   */
  lemma RefusedExactly(row: Row, current: Option<Product>, ctx: Context)
    ensures var seed := "product-id:" <= row.externalKey;
            var stranger := current.Some? &&
              (current.value.productType != "item" ||
               (if seed then current.value.externalKey != None || row.productId != Some(current.value.id)
                else current.value.externalKey != Some(row.externalKey)));
            var ownerSwitchedOff := current.Some? && !Active(current.value) && row.source != Legacy && row.source != Seed &&
              row.action != Deactivate && row.action != LeaveInactive &&
              Property(Read(current.value, DeliveryPayload), "source") == Some(Str("iris-item-catalog"));
            var skipped := if current.None? then row.action != Create else ownerSwitchedOff;
            var category := row.categoryName.Some? && row.categoryName.value != "" && row.categoryName.value in ctx.categoryIds &&
              ctx.categoryIds[row.categoryName.value] != 0;
            && (Change(row, current, ctx) == Refused <==>
                  stranger || (!skipped && WritesPayload(row) && (row.quantity.None? || row.price.None? || !category)))
            && (Change(row, current, ctx).Done? ==> (Change(row, current, ctx).kind == Skip <==> skipped))
  {
  }

  /**
   The review of a draft that is not sellable is on record afterwards, and every other member
   of its payload is as it was.
   */
  lemma ReviewIsOnRecord(row: Row, current: Product, ctx: Context, newId: int, key: string)
    requires row.action == LeaveInactive && row.source == Draft && !Active(current) && Applies(row, Some(current), ctx)
    ensures var before, after := Read(current, DeliveryPayload), Read(After(row, Some(current), ctx, newId), DeliveryPayload);
            && ReviewIsCurrent(ReviewOf(after), row.code, row.reason)
            && (before.Obj? && key != "review" ==> Property(after, key) == Property(before, key))
            && (if ReviewIsCurrent(ReviewOf(before), row.code, row.reason) then after == before
                else Property(ReviewOf(after), "reviewedAt") == Some(Str(ctx.reviewedAt)) &&
                     Property(ReviewOf(after), "plan") == Some(Str(ctx.planGeneratedAt)))
  {
    AfterHolds(row, Some(current), ctx, newId);
    var payload := Read(current, DeliveryPayload);
    ReviewSettles(payload, row.code, row.reason, ctx);
    ReviewIsDated(payload, row.code, row.reason, ctx);
    if payload.Obj? {
      GetSet(payload.fields, "review", Obj(Reviewed(Spread(ReviewOf(payload)), row.code, row.reason, ctx)), key);
    }
  }

  /** A kept row's own image is replaced only when it is a shared placeholder and the new one is meant for it. */
  lemma OwnImagesStay(row: Row, current: Product, ctx: Context)
    requires row.action == Keep && Change(row, Some(current), ctx).Done?
    requires ImageUrl in Change(row, Some(current), ctx).data && ImageOf(Some(current)).Some? && ImageOf(Some(current)).value != ""
    ensures ImageOf(Some(current)).value in ctx.placeholders && Active(current)
    ensures var art := ArtworkFor(row, Some(current), ctx);
            art.Some? && art.value.productIds.Some? && current.id in art.value.productIds.value
  {
    if TargetSellable(row, ctx).Some? {
      SellableIsSet(row, ctx);
    }
  }

  // ---------------------------------------------------------------- the writer's code

  method ComputeChange(row: Row, current: Option<Product>, ctx: Context) returns (change: Outcome)
    ensures change == Change(row, current, ctx)
  {
    if current.Some? {
      if current.value.productType != "item" {
        return Refused;
      }
      if !MatchesRow(row, current.value) {
        return Refused;
      }
    } else if row.action != Create {
      return Done(Skip, row.productId, map[]);
    }
    if current.Some? && IsOwnerDeactivated(row, current.value) {
      return Done(Skip, Some(current.value.id), map[]);
    }

    var target: Columns := map[];
    match row.action {
      case Keep =>
        if IsOwnerRow(row) {
          if row.description.Some? && row.description.value != "" && IsBlank(Read(current.value, Description)) {
            target := target[Description := Str(row.description.value)];
          }
        } else {
          var sellable := TargetSellable(row, ctx);
          if sellable.None? {
            return Refused;
          }
          target := sellable.value[IsActive := Read(current.value, IsActive)];
        }
      case Deactivate =>
        target := map[IsActive := Bool(false)];
      case LeaveInactive =>
        if row.source == Draft && !Active(current.value) {
          var payload := Read(current.value, DeliveryPayload);
          if !ReviewIsCurrent(ReviewOf(payload), row.code, row.reason) {
            target := target[DeliveryPayload := WithReview(payload, row.code, row.reason, ctx)];
          }
        }
      case _ =>
        var sellable := TargetSellable(row, ctx);
        if sellable.None? {
          return Refused;
        }
        target := sellable.value;
    }

    var imageUrl: Option<string> := None;
    if IsSellable(row.action) && (row.action != Keep || (current.Some? && Active(current.value))) {
      if !(row.imageHold && IsOwnerRow(row)) {
        imageUrl := ChosenImage(row, current, ArtworkFor(row, current, ctx), ctx.placeholders);
      }
    }
    if imageUrl.Some? {
      target := target[ImageUrl := Str(imageUrl.value)];
    }

    if current.None? {
      if ImageUrl !in target {
        target := target[ImageUrl := Null];
      }
      return Done(Created, None, target);
    }
    var data, before, after := Diff(current.value, target);
    return Done(if data == map[] then Noop else Update, Some(current.value.id), data);
  }
}
