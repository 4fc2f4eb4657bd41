/**
 What applying a plan row has in common for items and dinos (apply-core.ts of both catalogs):
 the product's columns, the written differences, the review of a row that is not sellable, and
 the product as it is afterwards.

 A product's columns hold JSON; an object keeps its keys in order, as `sameJson` compares
 texts. A column that is not there reads as null.
 */
module CatalogApply {
  import opened Numbers
  import opened Options

  // ---------------------------------------------------------------- JSON

  datatype ColumnValue = Null | Bool(b: bool) | Num(n: real) | Str(s: string) | Arr(items: seq<ColumnValue>) | Obj(fields: seq<Member>)
  datatype Member = Member(key: string, value: ColumnValue)

  function Get(fields: seq<Member>, key: string): Option<ColumnValue> {
    if fields == [] then None
    else if fields[0].key == key then Some(fields[0].value)
    else Get(fields[1..], key)
  }

  lemma {:induction false} GetAt(fields: seq<Member>, key: string, i: nat)
    requires i < |fields| && fields[i].key == key && forall j :: 0 <= j < i ==> fields[j].key != key
    ensures Get(fields, key) == Some(fields[i].value)
    decreases i
  {
    if i > 0 {
      assert forall j :: 0 <= j < i - 1 ==> fields[1..][j] == fields[j + 1];
      GetAt(fields[1..], key, i - 1);
    }
  }

  // A key that is there keeps its place; a new one goes last.
  function Set(fields: seq<Member>, key: string, value: ColumnValue): seq<Member> {
    if fields == [] then [Member(key, value)]
    else if fields[0].key == key then [Member(key, value)] + fields[1..]
    else [fields[0]] + Set(fields[1..], key, value)
  }

  lemma {:induction false} GetSet(fields: seq<Member>, key: string, value: ColumnValue, other: string)
    ensures Get(Set(fields, key, value), other) == if other == key then Some(value) else Get(fields, other)
  {
    if fields != [] && fields[0].key != key {
      GetSet(fields[1..], key, value, other);
    }
  }

  // The own properties that spreading a value into an object copies.
  function Spread(v: ColumnValue): seq<Member> {
    match v
    case Obj(fields) => fields
    case Arr(items) => seq(|items|, i requires 0 <= i < |items| => Member(Decimal(i), items[i]))
    case Str(s) => seq(|s|, i requires 0 <= i < |s| => Member(Decimal(i), Str([s[i]])))
    case _ => []
  }

  // v.key, for a key that is not a number; undefined is None.
  function Property(v: ColumnValue, key: string): Option<ColumnValue> {
    if v.Obj? then Get(v.fields, key) else None
  }

  // v.outer.key
  function Inner(v: ColumnValue, outer: string, key: string): Option<ColumnValue> {
    var inner := Property(v, outer);
    if inner.Some? then Property(inner.value, key) else None
  }

  const MAX_SAFE: real := 9007199254740991.0

  predicate IsSafeInteger(x: real) {
    x == x.Floor as real && -MAX_SAFE <= x <= MAX_SAFE
  }

  // A quality as its integer column keeps it.
  function QualityColumn(quality: real): real {
    if IsSafeInteger(quality) && quality >= 0.0 then quality else 0.0
  }

  predicate IsSpace(c: char) {
    9 <= c as int <= 13 || c as int in {32, 0xA0, 0x1680, 0x2028, 0x2029, 0x202F, 0x205F, 0x3000, 0xFEFF} || 0x2000 <= c as int <= 0x200A
  }

  predicate IsBlank(v: ColumnValue) {
    v.Str? ==> forall i :: 0 <= i < |v.s| ==> IsSpace(v.s[i])
  }

  // ---------------------------------------------------------------- products

  datatype Column =
    | Name | Description | Price | CategoryId | ItemBlueprint | Quantity | Quality | IsBlueprint
    | RequiredCapabilities | DeliveryPayload | IsActive | SortOrder | ImageUrl

  type Columns = map<Column, ColumnValue>

  datatype Product = Product(id: int, productType: string, externalKey: Option<string>, columns: Columns)

  datatype Action = Keep | Activate | Create | Deactivate | LeaveInactive
  datatype Source = Legacy | Seed | Draft | Wiki | Catalog

  datatype Artwork = Artwork(imageUrl: string, productIds: Option<set<int>>)

  datatype ArtworkIndex = ArtworkIndex(byProductId: map<int, string>, byExternalKey: map<string, Artwork>, byPackage: map<string, Artwork>)

  datatype Context = Context(
    planGeneratedAt: string,
    categoryIds: map<string, int>,
    artwork: Option<ArtworkIndex>,
    reviewedAt: string,
    placeholders: set<string>)

  datatype Kind = Update | Created | Noop | Skip

  // Throwing is Refused. Notes and messages are not modelled.
  datatype Outcome = Refused | Done(kind: Kind, productId: Option<int>, data: Columns)

  predicate IsSellable(action: Action) {
    action == Keep || action == Activate || action == Create
  }

  function Read(p: Product, c: Column): ColumnValue {
    if c in p.columns then p.columns[c] else Null
  }

  predicate Active(p: Product) {
    Read(p, IsActive) == Bool(true)
  }

  function TextOf(v: ColumnValue): Option<string> {
    if v.Str? then Some(v.s) else None
  }

  // What the table's column types promise of a row that was read.
  ghost predicate IsStored(p: Product) {
    && (forall c: Column :: c in p.columns)
    && p.columns[IsActive].Bool?
    && (p.columns[ImageUrl].Null? || p.columns[ImageUrl].Str?)
    && forall c :: c in {Name, Price, RequiredCapabilities, Quantity, Quality, IsBlueprint, SortOrder} ==> !p.columns[c].Null?
  }

  function OptionalText(s: Option<string>): ColumnValue {
    if s.Some? then Str(s.value) else Null
  }

  // The id of a category; a name that is missing, empty or unknown is an error.
  function CategoryOf(name: Option<string>, ctx: Context): Option<int> {
    if name.None? || name.value == "" || name.value !in ctx.categoryIds || ctx.categoryIds[name.value] == 0 then None
    else Some(ctx.categoryIds[name.value])
  }

  // ---------------------------------------------------------------- reviews

  predicate ReviewIsCurrent(review: ColumnValue, code: string, reason: string) {
    && Property(review, "status") == Some(Str("not_sellable"))
    && Property(review, "code") == Some(Str(code))
    && Property(review, "reason") == Some(Str(reason))
  }

  function ReviewOf(payload: ColumnValue): ColumnValue {
    var review := Get(if payload.Obj? || payload.Arr? then Spread(payload) else [], "review");
    if review.None? || review == Some(Null) then Obj([]) else review.value
  }

  function Reviewed(review: seq<Member>, code: string, reason: string, ctx: Context): seq<Member> {
    var judged := Set(Set(Set(review, "status", Str("not_sellable")), "code", Str(code)), "reason", Str(reason));
    Set(Set(judged, "reviewedAt", Str(ctx.reviewedAt)), "plan", Str(ctx.planGeneratedAt))
  }

  function WithReview(payload: ColumnValue, code: string, reason: string, ctx: Context): ColumnValue {
    var fields := if payload.Obj? || payload.Arr? then Spread(payload) else [];
    Obj(Set(fields, "review", Obj(Reviewed(Spread(ReviewOf(payload)), code, reason, ctx))))
  }

  lemma ReviewSettles(payload: ColumnValue, code: string, reason: string, ctx: Context)
    ensures WithReview(payload, code, reason, ctx).Obj?
    ensures ReviewIsCurrent(ReviewOf(WithReview(payload, code, reason, ctx)), code, reason)
  {
    var fields := if payload.Obj? || payload.Arr? then Spread(payload) else [];
    var review := Reviewed(Spread(ReviewOf(payload)), code, reason, ctx);
    GetSet(fields, "review", Obj(review), "review");
    ReviewedReads(Spread(ReviewOf(payload)), code, reason, ctx);
  }

  // The review says when it was made and for which plan.
  lemma ReviewIsDated(payload: ColumnValue, code: string, reason: string, ctx: Context)
    ensures var review := ReviewOf(WithReview(payload, code, reason, ctx));
            Property(review, "reviewedAt") == Some(Str(ctx.reviewedAt)) && Property(review, "plan") == Some(Str(ctx.planGeneratedAt))
  {
    var fields := if payload.Obj? || payload.Arr? then Spread(payload) else [];
    var base := Spread(ReviewOf(payload));
    var judged := Set(Set(Set(base, "status", Str("not_sellable")), "code", Str(code)), "reason", Str(reason));
    GetSet(fields, "review", Obj(Reviewed(base, code, reason, ctx)), "review");
    assert "plan" != "reviewedAt" by {
      assert |"plan"| != |"reviewedAt"|;
    }
    GetSet(Set(judged, "reviewedAt", Str(ctx.reviewedAt)), "plan", Str(ctx.planGeneratedAt), "plan");
    GetSet(Set(judged, "reviewedAt", Str(ctx.reviewedAt)), "plan", Str(ctx.planGeneratedAt), "reviewedAt");
    GetSet(judged, "reviewedAt", Str(ctx.reviewedAt), "reviewedAt");
  }

  lemma ReviewedReads(base: seq<Member>, code: string, reason: string, ctx: Context)
    ensures Get(Reviewed(base, code, reason, ctx), "status") == Some(Str("not_sellable"))
    ensures Get(Reviewed(base, code, reason, ctx), "code") == Some(Str(code))
    ensures Get(Reviewed(base, code, reason, ctx), "reason") == Some(Str(reason))
  {
    KeysDiffer();
    ReviewedRead(base, code, reason, ctx, "status");
    ReviewedRead(base, code, reason, ctx, "code");
    ReviewedRead(base, code, reason, ctx, "reason");
  }

  lemma KeysDiffer()
    ensures "status" != "code" && "status" != "reason" && "code" != "reason"
    ensures "status" != "reviewedAt" && "code" != "reviewedAt" && "reason" != "reviewedAt"
    ensures "status" != "plan" && "code" != "plan" && "reason" != "plan"
  {
    assert |"status"| == 6 && |"reason"| == 6 && |"code"| == 4 && |"plan"| == 4 && |"reviewedAt"| == 10;
    assert "status"[0] != "reason"[0] && "code"[0] != "plan"[0];
  }

  lemma ReviewedRead(base: seq<Member>, code: string, reason: string, ctx: Context, key: string)
    requires key != "reviewedAt" && key != "plan"
    ensures Get(Reviewed(base, code, reason, ctx), key) ==
            if key == "reason" then Some(Str(reason))
            else if key == "code" then Some(Str(code))
            else if key == "status" then Some(Str("not_sellable"))
            else Get(base, key)
  {
    var status := Set(base, "status", Str("not_sellable"));
    var coded := Set(status, "code", Str(code));
    var reasoned := Set(coded, "reason", Str(reason));
    var at := Set(reasoned, "reviewedAt", Str(ctx.reviewedAt));
    GetSet(at, "plan", Str(ctx.planGeneratedAt), key);
    GetSet(reasoned, "reviewedAt", Str(ctx.reviewedAt), key);
    GetSet(coded, "reason", Str(reason), key);
    GetSet(status, "code", Str(code), key);
    GetSet(base, "status", Str("not_sellable"), key);
  }

  // ---------------------------------------------------------------- artwork

  function Listed(m: map<string, Artwork>, key: string): Option<Artwork> {
    if key in m && m[key].imageUrl != "" then Some(m[key]) else None
  }

  // By external key first, then by package.
  function LookupShared(index: ArtworkIndex, externalKey: string, package: string): (r: Option<Artwork>)
    ensures r.Some? ==> r.value.imageUrl != ""
  {
    if Listed(index.byExternalKey, externalKey).Some? then Listed(index.byExternalKey, externalKey)
    else Listed(index.byPackage, package)
  }

  function ImageOf(current: Option<Product>): Option<string> {
    if current.Some? then TextOf(Read(current.value, ImageUrl)) else None
  }

  // ---------------------------------------------------------------- differences and projection

  function Differences(current: Product, target: Columns): Columns {
    map c | c in target && target[c] != Read(current, c) :: target[c]
  }

  function WithImage(target: Columns, image: Option<string>): Columns {
    if image.Some? then target[ImageUrl := Str(image.value)] else target
  }

  // A null in these columns is replaced by a default.
  function DefaultFor(c: Column): ColumnValue {
    match c
    case RequiredCapabilities => Arr([])
    case Quantity => Num(1.0)
    case Quality => Num(0.0)
    case IsBlueprint => Bool(false)
    case IsActive => Bool(false)
    case SortOrder => Num(0.0)
    case _ => Null
  }

  /** The product as it is after the change; `newId` and `newKey` are those of a created one. */
  function Projected(productType: string, current: Option<Product>, data: Columns, newId: int, newKey: string): Product {
    var merged := (if current.Some? then current.value.columns else map[]) + data;
    Product(if current.Some? then current.value.id else newId, productType,
            if current.Some? then current.value.externalKey else Some(newKey),
            map c: Column ::
              if c in merged && merged[c] != Null then merged[c] else DefaultFor(c))
  }

  // What is written: the differences from a product that is there, or the whole of a new one.
  function Written(current: Option<Product>, full: Columns): Columns {
    if current.Some? then Differences(current.value, full)
    else if ImageUrl in full then full else full[ImageUrl := Null]
  }

  // No null among these columns would be replaced by a default.
  ghost predicate NullsStay(columns: Columns) {
    forall c :: c in columns && columns[c] == Null ==> DefaultFor(c) == Null
  }

  lemma OneMoreStays(columns: Columns, c: Column, value: ColumnValue)
    requires NullsStay(columns) && (value == Null ==> DefaultFor(c) == Null)
    ensures NullsStay(columns[c := value])
  {
  }

  // The state a row asks for, on top of the state there was.
  ghost predicate Holds(p: Product, full: Columns, current: Option<Product>) {
    && (forall c: Column :: c in p.columns)
    && (forall c :: c in full ==> p.columns[c] == full[c])
    && (forall c: Column :: c !in full ==> p.columns[c] == if current.Some? && c in current.value.columns then current.value.columns[c] else Null)
  }

  // Writing the differences gives the whole target.
  lemma ProjectionHolds(productType: string, current: Option<Product>, full: Columns, newId: int, newKey: string)
    requires NullsStay(full) && (current.Some? ==> IsStored(current.value))
    requires current.None? ==> forall c: Column :: c != ImageUrl ==> c in full
    ensures Holds(Projected(productType, current, Written(current, full), newId, newKey), full, current)
  {
  }

  // Nothing the row asks for is different from what the product has.
  ghost predicate Settled(p: Product, columns: Columns) {
    forall c :: c in columns ==> c in p.columns && p.columns[c] == columns[c]
  }

  lemma SettledIsQuiet(p: Product, columns: Columns)
    requires Settled(p, columns)
    ensures Differences(p, columns) == map[]
  {
  }

  // ---------------------------------------------------------------- the writer's loop

  method Diff(current: Product, target: Columns) returns (data: Columns, before: Columns, after: Columns)
    ensures data == Differences(current, target) && after == data
    ensures before.Keys == data.Keys && forall c :: c in before ==> before[c] == Read(current, c)
  {
    data, before, after := map[], map[], map[];
    var rest := target.Keys;
    while rest != {}
      invariant rest <= target.Keys
      invariant forall c :: c in data <==> c in target.Keys - rest && target[c] != Read(current, c)
      invariant forall c :: c in data ==> data[c] == target[c]
      invariant after == data && before.Keys == data.Keys
      invariant forall c :: c in before ==> before[c] == Read(current, c)
      decreases |rest|
    {
      var key :| key in rest;
      rest := rest - {key};
      var existing := Read(current, key);
      if existing != target[key] {
        data := data[key := target[key]];
        before := before[key := existing];
        after := after[key := target[key]];
      }
    }
  }
}
