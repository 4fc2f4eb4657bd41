/**
 Canonical JSON text (lib.ts of the item catalog, stableJson) and the columns it is taken of
 (productFingerprint).

 Strings are UTF-16 code units. `Json` is a JavaScript value as the printer meets it; `Tree`
 is what it is printed as: undefined and non-finite numbers are null, undefined fields are
 gone, dates are text, and an object is a map. A number is the token JavaScript prints for it.
 */
module StableJson {

  type unit = u: int | 0 <= u < 0x10000
  type Text = seq<unit>

  datatype Field = Field(key: Text, value: Json)

  datatype Json =
    | Undefined
    | Null
    | Bool(b: bool)
    | NonFinite
    | Number(token: Text)
    | Str(s: Text)
    | Moment(iso: Text)
    | Arr(items: seq<Json>)
    | Obj(fields: seq<Field>)

  datatype Tree =
    | NullTree
    | BoolTree(b: bool)
    | NumberTree(token: Text)
    | TextTree(s: Text)
    | ArrTree(items: seq<Tree>)
    | ObjTree(fields: map<Text, Tree>)

  // What may stand in a number: digits - + . e
  predicate NumberUnit(u: unit) {
    48 <= u <= 57 || u == 45 || u == 43 || u == 46 || u == 101
  }

  predicate NumberToken(s: Text) {
    s != [] && (48 <= s[0] <= 57 || s[0] == 45) && forall i :: 0 <= i < |s| ==> NumberUnit(s[i])
  }

  ghost predicate DistinctKeys(fields: seq<Field>) {
    forall i, j :: 0 <= i < j < |fields| ==> fields[i].key != fields[j].key
  }

  // An object has one value for each key.
  ghost predicate Sound(v: Json)
    decreases v
  {
    match v
    case Number(token) => NumberToken(token)
    case Arr(items) => forall i :: 0 <= i < |items| ==> Sound(items[i])
    case Obj(fields) => DistinctKeys(fields) && forall i :: 0 <= i < |fields| ==> Sound(fields[i].value)
    case _ => true
  }

  // The keys of an object whose value is not undefined.
  function DefinedKeys(fields: seq<Field>): set<Text> {
    set f | f in fields && f.value != Undefined :: f.key
  }

  function Lookup(fields: seq<Field>, k: Text): (r: Json)
    requires k in DefinedKeys(fields)
    ensures exists i :: 0 <= i < |fields| && fields[i] == Field(k, r) && r != Undefined
  {
    if fields[0].key == k && fields[0].value != Undefined then
      assert fields[0] == Field(k, fields[0].value);
      fields[0].value
    else
      assert forall f :: f in fields ==> f == fields[0] || f in fields[1..];
      var r := Lookup(fields[1..], k);
      assert forall i :: 0 <= i < |fields[1..]| ==> fields[1..][i] == fields[i + 1];
      r
  }

  ghost function Norm(v: Json): Tree
    requires Sound(v)
    decreases v
  {
    match v
    case Undefined => NullTree
    case Null => NullTree
    case NonFinite => NullTree
    case Bool(b) => BoolTree(b)
    case Number(token) => NumberTree(token)
    case Str(s) => TextTree(s)
    case Moment(iso) => TextTree(iso)
    case Arr(items) => ArrTree(seq(|items|, i requires 0 <= i < |items| => Norm(items[i])))
    case Obj(fields) => ObjTree(map k | k in DefinedKeys(fields) :: Norm(Lookup(fields, k)))
  }

  // ---------------------------------------------------------------- strings

  predicate IsHigh(u: unit) {
    0xD800 <= u < 0xDC00
  }

  predicate IsLow(u: unit) {
    0xDC00 <= u < 0xE000
  }

  function HexUnit(d: int): unit
    requires 0 <= d < 16
  {
    if d < 10 then 48 + d else 87 + d
  }

  function Hex4(u: unit): Text {
    [HexUnit(u / 4096), HexUnit(u / 256 % 16), HexUnit(u / 16 % 16), HexUnit(u % 16)]
  }

  lemma HexUnitInjective(d: int, e: int)
    requires 0 <= d < 16 && 0 <= e < 16 && HexUnit(d) == HexUnit(e)
    ensures d == e
  {
  }

  lemma HexDigits(u: unit)
    ensures u == u / 4096 * 4096 + u / 256 % 16 * 256 + u / 16 % 16 * 16 + u % 16
  {
    assert u / 256 == u / 4096 * 16 + u / 256 % 16;
    assert u / 16 == u / 256 * 16 + u / 16 % 16;
  }

  lemma Hex4Injective(u: unit, w: unit)
    requires Hex4(u) == Hex4(w)
    ensures u == w
  {
    assert Hex4(u)[0] == Hex4(w)[0] && Hex4(u)[1] == Hex4(w)[1] && Hex4(u)[2] == Hex4(w)[2] && Hex4(u)[3] == Hex4(w)[3];
    HexDigits(u);
    HexDigits(w);
    HexUnitInjective(u / 4096, w / 4096);
    HexUnitInjective(u / 256 % 16, w / 256 % 16);
    HexUnitInjective(u / 16 % 16, w / 16 % 16);
    HexUnitInjective(u % 16, w % 16);
  }

  // The letter of a two-unit escape, or 0.
  function ShortEscape(u: unit): unit {
    if u == 34 then 34
    else if u == 92 then 92
    else if u == 8 then 98
    else if u == 9 then 116
    else if u == 10 then 110
    else if u == 12 then 102
    else if u == 13 then 114
    else 0
  }

  function Escape(u: unit): Text {
    if ShortEscape(u) != 0 then [92, ShortEscape(u)]
    else if u < 32 || IsHigh(u) || IsLow(u) then [92, 117] + Hex4(u)
    else [u]
  }

  // One code unit, or a surrogate pair.
  predicate IsPoint(c: Text) {
    |c| == 1 || (|c| == 2 && IsHigh(c[0]) && IsLow(c[1]))
  }

  function First(s: Text): (c: Text)
    requires s != []
    ensures IsPoint(c) && c <= s
  {
    if |s| > 1 && IsHigh(s[0]) && IsLow(s[1]) then s[..2] else s[..1]
  }

  function Token(c: Text): (t: Text)
    requires IsPoint(c)
    ensures t != [] && t[0] != 34
  {
    if |c| == 2 then c else Escape(c[0])
  }

  function EscapeAll(s: Text): Text
    decreases |s|
  {
    if s == [] then [] else Token(First(s)) + EscapeAll(s[|First(s)|..])
  }

  function Quote(s: Text): Text {
    [34] + EscapeAll(s) + [34]
  }

  // ---------------------------------------------------------------- order of keys

  // By code units, a prefix first: the default order of Array.prototype.sort.
  predicate Before(s: Text, t: Text)
    decreases |s|
  {
    t != [] && (s == [] || s[0] < t[0] || (s[0] == t[0] && Before(s[1..], t[1..])))
  }

  predicate Sorted(fs: seq<Field>) {
    forall i, j :: 0 <= i < j < |fs| ==> Before(fs[i].key, fs[j].key)
  }

  function InsertField(f: Field, fs: seq<Field>): (r: seq<Field>)
    ensures forall x :: x in r <==> x == f || x in fs
  {
    if fs == [] || Before(f.key, fs[0].key) then [f] + fs
    else
      var rest := InsertField(f, fs[1..]);
      assert fs == [fs[0]] + fs[1..];
      [fs[0]] + rest
  }

  function SortFields(fs: seq<Field>): (r: seq<Field>)
    ensures forall x :: x in r <==> x in fs
  {
    if fs == [] then []
    else
      assert fs == [fs[0]] + fs[1..];
      InsertField(fs[0], SortFields(fs[1..]))
  }

  function DefinedFields(fs: seq<Field>): (r: seq<Field>)
    ensures forall x :: x in r <==> x in fs && x.value != Undefined
  {
    if fs == [] then []
    else
      assert fs == [fs[0]] + fs[1..];
      var rest := DefinedFields(fs[1..]);
      if fs[0].value == Undefined then rest else [fs[0]] + rest
  }

  // The fields that are printed, in the order they are printed.
  function Listed(fields: seq<Field>): (r: seq<Field>)
    ensures forall x :: x in r <==> x in fields && x.value != Undefined
  {
    DefinedFields(SortFields(fields))
  }

  // ---------------------------------------------------------------- the printer

  const NULL: Text := [110, 117, 108, 108]
  const TRUE: Text := [116, 114, 117, 101]
  const FALSE: Text := [102, 97, 108, 115, 101]

  function Print(v: Json): Text
    decreases v, 1, 0
  {
    match v
    case Undefined => NULL
    case Null => NULL
    case NonFinite => NULL
    case Bool(b) => if b then TRUE else FALSE
    case Number(token) => token
    case Str(s) => Quote(s)
    case Moment(iso) => Quote(iso)
    case Arr(items) => [91] + PrintItems(v, items) + [93]
    case Obj(fields) => [123] + PrintFields(v, Listed(fields)) + [125]
  }

  ghost predicate ItemsOf(v: Json, items: seq<Json>) {
    v.Arr? && forall x :: x in items ==> x in v.items
  }

  ghost predicate FieldsOf(v: Json, fs: seq<Field>) {
    v.Obj? && forall f :: f in fs ==> f in v.fields
  }

  function PrintItems(ghost v: Json, items: seq<Json>): Text
    requires ItemsOf(v, items)
    decreases v, 0, |items|
  {
    if items == [] then []
    else
      assert items[0] in items;
      Print(items[0]) + (if |items| == 1 then [] else [44] + PrintItems(v, items[1..]))
  }

  function PrintFields(ghost v: Json, fs: seq<Field>): Text
    requires FieldsOf(v, fs)
    decreases v, 0, |fs|
  {
    if fs == [] then []
    else
      assert fs[0] in fs;
      Quote(fs[0].key) + [58] + Print(fs[0].value) +
      (if |fs| == 1 then [] else [44] + PrintFields(v, fs[1..]))
  }

  // ---------------------------------------------------------------- strings decode

  lemma SamePrefix(a: Text, b: Text, x: Text, y: Text)
    requires |a| == |b| && a + x == b + y
    ensures a == b && x == y
  {
    assert (a + x)[..|a|] == a && (b + y)[..|b|] == b;
    assert (a + x)[|a|..] == x && (b + y)[|b|..] == y;
  }

  lemma Assoc(a: Text, b: Text, c: Text)
    ensures (a + b) + c == a + (b + c)
  {
  }

  lemma Bracketed(open: Text, inner: Text, close: Text, x: Text)
    ensures (open + inner + close) + x == open + (inner + (close + x))
  {
    Assoc(open + inner, close, x);
    Assoc(open, inner, close + x);
  }

  lemma EscapeShape(u: unit)
    ensures var t := Escape(u);
            && (t[0] != 92 ==> t == [u] && !IsHigh(u))
            && (t[0] == 92 ==> |t| >= 2 && |t| == if t[1] == 117 then 6 else 2)
  {
  }

  lemma EscapesAlike(u: unit, w: unit)
    requires Escape(u) == Escape(w)
    ensures u == w
  {
    EscapeShape(u);
    EscapeShape(w);
    if |Escape(u)| == 6 {
      assert Escape(u)[2..] == Hex4(u) && Escape(w)[2..] == Hex4(w);
      Hex4Injective(u, w);
    } else {
      assert |Escape(u)| == 2 ==> Escape(u)[1] == Escape(w)[1];
      assert |Escape(u)| == 1 ==> Escape(u)[0] == Escape(w)[0];
    }
  }

  // No token is the beginning of another.
  lemma TokenDecodes(c: Text, d: Text, x: Text, y: Text)
    requires IsPoint(c) && IsPoint(d) && Token(c) + x == Token(d) + y
    ensures c == d && x == y
  {
    var a, b := Token(c), Token(d);
    EscapeShape(c[0]);
    EscapeShape(d[0]);
    assert a[0] == (a + x)[0] == (b + y)[0] == b[0];
    if a[0] == 92 {
      assert a[1] == (a + x)[1] == (b + y)[1] == b[1];
    }
    assert |a| == |b|;
    SamePrefix(a, b, x, y);
    if |c| == 1 && |d| == 1 {
      EscapesAlike(c[0], d[0]);
    }
  }

  // Only the closing quote is a bare quote.
  lemma EscapedStart(s: Text, x: Text)
    ensures var left := EscapeAll(s) + ([34] + x);
            left != [] && (left[0] == 34 <==> s == [])
  {
    if s != [] {
      assert (EscapeAll(s) + ([34] + x))[0] == Token(First(s))[0];
    }
  }

  lemma EscapedNext(s: Text, x: Text)
    requires s != []
    ensures EscapeAll(s) + ([34] + x) == Token(First(s)) + (EscapeAll(s[|First(s)|..]) + ([34] + x))
    ensures s == First(s) + s[|First(s)|..]
  {
    var c, rest := First(s), s[|First(s)|..];
    Halves(s, c);
    assert EscapeAll(s) == Token(c) + EscapeAll(rest);
    Assoc(Token(c), EscapeAll(rest), [34] + x);
  }

  lemma Halves(s: Text, front: Text)
    requires front <= s
    ensures s == front + s[|front|..]
  {
  }

  lemma {:induction false} EscapedDecodes(s: Text, t: Text, x: Text, y: Text)
    requires EscapeAll(s) + ([34] + x) == EscapeAll(t) + ([34] + y)
    ensures s == t && x == y
    decreases |s|
  {
    EscapedStart(s, x);
    EscapedStart(t, y);
    if s == [] {
      assert EscapeAll(s) + ([34] + x) == [34] + x && EscapeAll(t) + ([34] + y) == [34] + y;
      SamePrefix([34], [34], x, y);
    } else {
      EscapedNext(s, x);
      EscapedNext(t, y);
      var s1, t1 := s[|First(s)|..], t[|First(t)|..];
      TokenDecodes(First(s), First(t), EscapeAll(s1) + ([34] + x), EscapeAll(t1) + ([34] + y));
      EscapedDecodes(s1, t1, x, y);
    }
  }

  lemma QuoteDecodes(s: Text, t: Text, x: Text, y: Text)
    requires Quote(s) + x == Quote(t) + y
    ensures s == t && x == y
  {
    Bracketed([34], EscapeAll(s), [34], x);
    Bracketed([34], EscapeAll(t), [34], y);
    SamePrefix([34], [34], EscapeAll(s) + ([34] + x), EscapeAll(t) + ([34] + y));
    EscapedDecodes(s, t, x, y);
  }

  // ---------------------------------------------------------------- values decode

  // What may follow a value: nothing, a comma, or a closing bracket.
  predicate Delimited(r: Text) {
    r == [] || r[0] == 44 || r[0] == 93 || r[0] == 125
  }

  lemma NumberRunsOn(s: Text, t: Text, x: Text, y: Text)
    requires NumberToken(t) && s + x == t + y && |s| < |t|
    ensures x != [] && NumberUnit(x[0])
  {
    assert (t + y)[|s|] == t[|s|];
    assert |x| == |t| + |y| - |s|;
    assert (s + x)[|s|] == x[0];
  }

  lemma NumberEnds(s: Text, t: Text, x: Text, y: Text)
    requires NumberToken(t) && Delimited(x) && s + x == t + y
    ensures |s| >= |t|
  {
    if |s| < |t| {
      NumberRunsOn(s, t, x, y);
    }
  }

  lemma NumbersDecode(s: Text, t: Text, x: Text, y: Text)
    requires NumberToken(s) && NumberToken(t) && Delimited(x) && Delimited(y) && s + x == t + y
    ensures s == t && x == y
  {
    NumberEnds(s, t, x, y);
    NumberEnds(t, s, y, x);
    SamePrefix(s, t, x, y);
  }

  datatype Kind = NullKind | TrueKind | FalseKind | NumberKind | TextKind | ArrKind | ObjKind | NoKind

  function KindOf(v: Json): Kind {
    match v
    case Undefined => NullKind
    case Null => NullKind
    case NonFinite => NullKind
    case Bool(b) => if b then TrueKind else FalseKind
    case Number(_) => NumberKind
    case Str(_) => TextKind
    case Moment(_) => TextKind
    case Arr(_) => ArrKind
    case Obj(_) => ObjKind
  }

  function KindByUnit(u: unit): Kind {
    if u == 110 then NullKind
    else if u == 116 then TrueKind
    else if u == 102 then FalseKind
    else if 48 <= u <= 57 || u == 45 then NumberKind
    else if u == 34 then TextKind
    else if u == 91 then ArrKind
    else if u == 123 then ObjKind
    else NoKind
  }

  // The first unit tells what kind of value follows.
  lemma FirstUnit(v: Json)
    requires Sound(v)
    ensures Print(v) != [] && KindByUnit(Print(v)[0]) == KindOf(v)
  {
  }

  // What follows the first item, and the first field, of a list that is not empty.
  function AfterItem(ghost v: Json, items: seq<Json>, x: Text): Text
    requires ItemsOf(v, items) && items != []
  {
    if |items| == 1 then [93] + x else [44] + (PrintItems(v, items[1..]) + ([93] + x))
  }

  function AfterField(ghost v: Json, fs: seq<Field>, x: Text): Text
    requires FieldsOf(v, fs) && fs != []
  {
    if |fs| == 1 then [125] + x else [44] + (PrintFields(v, fs[1..]) + ([125] + x))
  }

  lemma ItemsNext(v: Json, items: seq<Json>, x: Text)
    requires ItemsOf(v, items)
    ensures items == [] ==> PrintItems(v, items) + ([93] + x) == [93] + x
    ensures items != [] ==> PrintItems(v, items) + ([93] + x) == Print(items[0]) + AfterItem(v, items, x)
  {
    if |items| == 1 {
      Assoc(Print(items[0]), [], [93] + x);
      assert [] + ([93] + x) == [93] + x;
    } else if items != [] {
      var rest := PrintItems(v, items[1..]);
      Assoc(Print(items[0]), [44] + rest, [93] + x);
      Assoc([44], rest, [93] + x);
    }
  }

  lemma FieldsNext(v: Json, fs: seq<Field>, x: Text)
    requires FieldsOf(v, fs)
    ensures fs == [] ==> PrintFields(v, fs) + ([125] + x) == [125] + x
    ensures fs != [] ==> PrintFields(v, fs) + ([125] + x) ==
                         Quote(fs[0].key) + ([58] + (Print(fs[0].value) + AfterField(v, fs, x)))
  {
    if fs != [] {
      var more := if |fs| == 1 then [] else [44] + PrintFields(v, fs[1..]);
      assert more + ([125] + x) == AfterField(v, fs, x) by {
        if |fs| > 1 {
          Assoc([44], PrintFields(v, fs[1..]), [125] + x);
        }
      }
      FourParts(Quote(fs[0].key), [58], Print(fs[0].value), more, [125] + x);
    }
  }

  lemma FourParts(a: Text, b: Text, c: Text, d: Text, e: Text)
    ensures (a + b + c + d) + e == a + (b + (c + (d + e)))
  {
    Assoc(a + b + c, d, e);
    Assoc(a + b, c, d + e);
    Assoc(a, b, c + (d + e));
  }

  ghost predicate AllSound(items: seq<Json>) {
    forall i :: 0 <= i < |items| ==> Sound(items[i])
  }

  ghost predicate SameItems(items: seq<Json>, others: seq<Json>)
    requires AllSound(items) && AllSound(others)
  {
    |items| == |others| && forall i :: 0 <= i < |items| ==> Norm(items[i]) == Norm(others[i])
  }

  ghost predicate FieldsSound(fs: seq<Field>) {
    forall i :: 0 <= i < |fs| ==> Sound(fs[i].value)
  }

  ghost predicate SameFields(fs: seq<Field>, gs: seq<Field>)
    requires FieldsSound(fs) && FieldsSound(gs)
  {
    |fs| == |gs| && forall i :: 0 <= i < |fs| ==> fs[i].key == gs[i].key && Norm(fs[i].value) == Norm(gs[i].value)
  }

  /** A value is read off the front of a text in one way only. */
  lemma {:induction false} Decodes(a: Json, b: Json, x: Text, y: Text)
    requires Sound(a) && Sound(b) && Delimited(x) && Delimited(y)
    requires Print(a) + x == Print(b) + y
    ensures Norm(a) == Norm(b) && x == y
    decreases a, 1, 0
  {
    FirstUnit(a);
    FirstUnit(b);
    assert Print(a)[0] == (Print(a) + x)[0] == (Print(b) + y)[0] == Print(b)[0];
    match KindOf(a)
    case NumberKind => NumbersDecode(a.token, b.token, x, y);
    case TextKind => QuoteDecodes(TextOf(a), TextOf(b), x, y);
    case ArrKind => ArraysDecode(a, b, x, y);
    case ObjKind => ObjectsDecode(a, b, x, y);
    case _ => SamePrefix(Print(a), Print(b), x, y);
  }

  function TextOf(v: Json): Text
    requires KindOf(v) == TextKind
  {
    if v.Str? then v.s else v.iso
  }

  lemma {:induction false} ArraysDecode(a: Json, b: Json, x: Text, y: Text)
    requires a.Arr? && b.Arr? && Sound(a) && Sound(b) && Delimited(x) && Delimited(y)
    requires Print(a) + x == Print(b) + y
    ensures Norm(a) == Norm(b) && x == y
    decreases a, 0, |a.items| + 1
  {
    Bracketed([91], PrintItems(a, a.items), [93], x);
    Bracketed([91], PrintItems(b, b.items), [93], y);
    SamePrefix([91], [91], PrintItems(a, a.items) + ([93] + x), PrintItems(b, b.items) + ([93] + y));
    ItemsDecode(a, a.items, b, b.items, x, y);
  }

  lemma {:induction false} ItemsDecode(a: Json, items: seq<Json>, b: Json, others: seq<Json>, x: Text, y: Text)
    requires ItemsOf(a, items) && ItemsOf(b, others) && AllSound(items) && AllSound(others)
    requires PrintItems(a, items) + ([93] + x) == PrintItems(b, others) + ([93] + y)
    ensures SameItems(items, others) && x == y
    decreases a, 0, |items|
  {
    ItemsNext(a, items, x);
    ItemsNext(b, others, y);
    ItemsStart(a, items, x);
    ItemsStart(b, others, y);
    if items == [] {
      SamePrefix([93], [93], x, y);
    } else {
      assert items[0] in items;
      Decodes(items[0], others[0], AfterItem(a, items, x), AfterItem(b, others, y));
      assert AfterItem(a, items, x)[0] == AfterItem(b, others, y)[0];
      if |items| == 1 {
        SamePrefix([93], [93], x, y);
      } else {
        SamePrefix([44], [44], PrintItems(a, items[1..]) + ([93] + x), PrintItems(b, others[1..]) + ([93] + y));
        ItemsDecode(a, items[1..], b, others[1..], x, y);
        assert forall i :: 1 <= i < |items| ==> items[i] == items[1..][i - 1] && others[i] == others[1..][i - 1];
      }
    }
  }

  // A list is empty exactly when the closing bracket comes first.
  lemma ItemsStart(v: Json, items: seq<Json>, x: Text)
    requires ItemsOf(v, items) && AllSound(items)
    ensures var text := PrintItems(v, items) + ([93] + x);
            text != [] && (text[0] == 93 <==> items == [])
  {
    ItemsNext(v, items, x);
    if items != [] {
      FirstUnit(items[0]);
    }
  }

  lemma {:induction false} ObjectsDecode(a: Json, b: Json, x: Text, y: Text)
    requires a.Obj? && b.Obj? && Sound(a) && Sound(b) && Delimited(x) && Delimited(y)
    requires Print(a) + x == Print(b) + y
    ensures Norm(a) == Norm(b) && x == y
    decreases a, 0, |Listed(a.fields)| + 1
  {
    ListedSound(a);
    ListedSound(b);
    ObjectOpens(a, b, x, y);
    FieldsDecode(a, Listed(a.fields), b, Listed(b.fields), x, y);
    SameListsSameMaps(a, b);
  }

  lemma ObjectOpens(a: Json, b: Json, x: Text, y: Text)
    requires a.Obj? && b.Obj? && Print(a) + x == Print(b) + y
    ensures PrintFields(a, Listed(a.fields)) + ([125] + x) == PrintFields(b, Listed(b.fields)) + ([125] + y)
  {
    var left, right := PrintFields(a, Listed(a.fields)), PrintFields(b, Listed(b.fields));
    Bracketed([123], left, [125], x);
    Bracketed([123], right, [125], y);
    SamePrefix([123], [123], left + ([125] + x), right + ([125] + y));
  }

  lemma ListedSound(v: Json)
    requires v.Obj? && Sound(v)
    ensures FieldsSound(Listed(v.fields))
  {
    forall i | 0 <= i < |Listed(v.fields)|
      ensures Sound(Listed(v.fields)[i].value)
    {
      assert Listed(v.fields)[i] in v.fields;
    }
  }

  // A list of fields is empty exactly when the closing brace comes first.
  lemma FieldsStart(v: Json, fs: seq<Field>, x: Text)
    requires FieldsOf(v, fs)
    ensures var text := PrintFields(v, fs) + ([125] + x);
            text != [] && (text[0] == 125 <==> fs == [])
  {
    FieldsNext(v, fs, x);
  }

  lemma {:induction false} FieldsDecode(a: Json, fs: seq<Field>, b: Json, gs: seq<Field>, x: Text, y: Text)
    requires FieldsOf(a, fs) && FieldsOf(b, gs) && FieldsSound(fs) && FieldsSound(gs)
    requires PrintFields(a, fs) + ([125] + x) == PrintFields(b, gs) + ([125] + y)
    ensures SameFields(fs, gs) && x == y
    decreases a, 0, |fs|
  {
    FieldsStart(a, fs, x);
    FieldsStart(b, gs, y);
    FieldsNext(a, fs, x);
    FieldsNext(b, gs, y);
    if fs == [] {
      SamePrefix([125], [125], x, y);
    } else {
      FieldDecodes(a, fs, b, gs, x, y);
      assert AfterField(a, fs, x)[0] == AfterField(b, gs, y)[0];
      if |fs| == 1 {
        SamePrefix([125], [125], x, y);
      } else {
        SamePrefix([44], [44], PrintFields(a, fs[1..]) + ([125] + x), PrintFields(b, gs[1..]) + ([125] + y));
        FieldsDecode(a, fs[1..], b, gs[1..], x, y);
        RestOfFields(fs, gs);
      }
    }
  }

  lemma {:induction false} FieldDecodes(a: Json, fs: seq<Field>, b: Json, gs: seq<Field>, x: Text, y: Text)
    requires FieldsOf(a, fs) && FieldsOf(b, gs) && fs != [] && gs != []
    requires Sound(fs[0].value) && Sound(gs[0].value)
    requires Quote(fs[0].key) + ([58] + (Print(fs[0].value) + AfterField(a, fs, x))) ==
             Quote(gs[0].key) + ([58] + (Print(gs[0].value) + AfterField(b, gs, y)))
    ensures fs[0].key == gs[0].key && Norm(fs[0].value) == Norm(gs[0].value)
    ensures AfterField(a, fs, x) == AfterField(b, gs, y)
    decreases a, 0, 0
  {
    assert fs[0] in fs;
    var left, right := Print(fs[0].value) + AfterField(a, fs, x), Print(gs[0].value) + AfterField(b, gs, y);
    QuoteDecodes(fs[0].key, gs[0].key, [58] + left, [58] + right);
    SamePrefix([58], [58], left, right);
    Decodes(fs[0].value, gs[0].value, AfterField(a, fs, x), AfterField(b, gs, y));
  }

  lemma RestOfFields(fs: seq<Field>, gs: seq<Field>)
    requires fs != [] && gs != [] && FieldsSound(fs) && FieldsSound(gs)
    requires fs[0].key == gs[0].key && Norm(fs[0].value) == Norm(gs[0].value)
    requires FieldsSound(fs[1..]) && FieldsSound(gs[1..]) && SameFields(fs[1..], gs[1..])
    ensures SameFields(fs, gs)
  {
    forall i | 1 <= i < |fs|
      ensures fs[i].key == gs[i].key && Norm(fs[i].value) == Norm(gs[i].value)
    {
      assert fs[i] == fs[1..][i - 1] && gs[i] == gs[1..][i - 1];
    }
  }

  ghost predicate SameLists(a: Json, b: Json) {
    && a.Obj? && b.Obj? && Sound(a) && Sound(b)
    && FieldsSound(Listed(a.fields)) && FieldsSound(Listed(b.fields))
    && SameFields(Listed(a.fields), Listed(b.fields))
  }

  lemma SameListsSameMaps(a: Json, b: Json)
    requires SameLists(a, b)
    ensures Norm(a) == Norm(b)
  {
    FieldsCarryOver(a, b);
    FieldsCarryOver(b, a);
    MapsAgree(Norm(a).fields, Norm(b).fields);
  }

  lemma MapsAgree(m: map<Text, Tree>, n: map<Text, Tree>)
    requires forall k :: k in m ==> k in n && m[k] == n[k]
    requires forall k :: k in n ==> k in m
    ensures m == n
  {
  }

  // Every entry of one map is an entry of the other.
  lemma FieldsCarryOver(a: Json, b: Json)
    requires SameLists(a, b)
    ensures forall k :: k in Norm(a).fields ==> k in Norm(b).fields && Norm(a).fields[k] == Norm(b).fields[k]
  {
    var fs, gs := Listed(a.fields), Listed(b.fields);
    forall k | k in Norm(a).fields
      ensures k in Norm(b).fields && Norm(a).fields[k] == Norm(b).fields[k]
    {
      var f :| f in a.fields && f.value != Undefined && f.key == k;
      assert f in fs;
      var i :| 0 <= i < |fs| && fs[i] == f;
      assert gs[i] in gs;
    }
  }

  // ---------------------------------------------------------------- the order of keys is strict and total

  lemma {:induction false} BeforeIsStrict(s: Text, t: Text)
    ensures Before(s, t) ==> s != t && !Before(t, s)
    decreases |s|
  {
    if s != [] && t != [] && s[0] == t[0] {
      BeforeIsStrict(s[1..], t[1..]);
    }
  }

  lemma {:induction false} BeforeIsTotal(s: Text, t: Text)
    ensures s == t || Before(s, t) || Before(t, s)
    decreases |s|
  {
    if s != [] && t != [] && s[0] == t[0] {
      BeforeIsTotal(s[1..], t[1..]);
      assert s == [s[0]] + s[1..] && t == [t[0]] + t[1..];
    }
  }

  lemma {:induction false} BeforeChains(s: Text, t: Text, w: Text)
    requires Before(s, t) && Before(t, w)
    ensures Before(s, w)
    decreases |s|
  {
    if s != [] && s[0] == t[0] && t[0] == w[0] {
      BeforeChains(s[1..], t[1..], w[1..]);
    }
  }

  lemma {:induction false} InsertSorts(f: Field, fs: seq<Field>)
    requires Sorted(fs) && forall g :: g in fs ==> g.key != f.key
    ensures Sorted(InsertField(f, fs))
    decreases |fs|
  {
    if fs != [] {
      assert fs[0] in fs;
      if Before(f.key, fs[0].key) {
        forall i | 0 < i < |fs|
          ensures Before(f.key, fs[i].key)
        {
          BeforeChains(f.key, fs[0].key, fs[i].key);
        }
      } else {
        BeforeIsTotal(f.key, fs[0].key);
        InsertSorts(f, fs[1..]);
        var rest := InsertField(f, fs[1..]);
        forall i | 0 <= i < |rest|
          ensures Before(fs[0].key, rest[i].key)
        {
          assert rest[i] in rest;
          if rest[i] != f {
            var j :| 0 <= j < |fs[1..]| && fs[1..][j] == rest[i];
            assert fs[1..][j] == fs[j + 1];
          }
        }
      }
    }
  }

  lemma {:induction false} SortSorts(fs: seq<Field>)
    requires DistinctKeys(fs)
    ensures Sorted(SortFields(fs))
    decreases |fs|
  {
    if fs != [] {
      assert DistinctKeys(fs[1..]) by {
        assert forall i :: 0 <= i < |fs[1..]| ==> fs[1..][i] == fs[i + 1];
      }
      SortSorts(fs[1..]);
      forall g | g in SortFields(fs[1..])
        ensures g.key != fs[0].key
      {
        var j :| 0 <= j < |fs[1..]| && fs[1..][j] == g;
        assert fs[j + 1] == g;
      }
      InsertSorts(fs[0], SortFields(fs[1..]));
    }
  }

  lemma {:induction false} FilterSorts(fs: seq<Field>)
    requires Sorted(fs)
    ensures Sorted(DefinedFields(fs))
    decreases |fs|
  {
    if fs != [] {
      FilterSorts(fs[1..]);
      var rest := DefinedFields(fs[1..]);
      forall i | 0 <= i < |rest|
        ensures Before(fs[0].key, rest[i].key)
      {
        FirstIsBefore(fs, rest[i]);
      }
    }
  }

  lemma FirstIsBefore(fs: seq<Field>, f: Field)
    requires Sorted(fs) && fs != [] && f in fs[1..]
    ensures Before(fs[0].key, f.key)
  {
    var j :| 0 <= j < |fs[1..]| && fs[1..][j] == f;
    assert fs[1..][j] == fs[j + 1];
  }

  ghost predicate HasKey(fs: seq<Field>, k: Text) {
    exists i :: 0 <= i < |fs| && fs[i].key == k
  }

  ghost predicate SameKeys(fs: seq<Field>, gs: seq<Field>) {
    forall k :: HasKey(fs, k) <==> HasKey(gs, k)
  }

  lemma HeadKeysAgree(fs: seq<Field>, gs: seq<Field>)
    requires Sorted(fs) && Sorted(gs) && SameKeys(fs, gs) && fs != [] && gs != []
    ensures fs[0].key == gs[0].key
  {
    assert fs[0].key == fs[0].key && gs[0].key == gs[0].key;
    assert HasKey(fs, fs[0].key) && HasKey(gs, gs[0].key);
    assert HasKey(gs, fs[0].key) && HasKey(fs, gs[0].key);
    var i :| 0 <= i < |gs| && gs[i].key == fs[0].key;
    var j :| 0 <= j < |fs| && fs[j].key == gs[0].key;
    BeforeIsStrict(fs[0].key, gs[0].key);
  }

  lemma TailHasKey(fs: seq<Field>, k: Text)
    requires Sorted(fs) && fs != []
    ensures HasKey(fs[1..], k) <==> HasKey(fs, k) && k != fs[0].key
  {
    if HasKey(fs[1..], k) {
      var i :| 0 <= i < |fs[1..]| && fs[1..][i].key == k;
      assert fs[i + 1].key == k;
      BeforeIsStrict(fs[0].key, fs[i + 1].key);
    }
    if HasKey(fs, k) && k != fs[0].key {
      var i :| 0 <= i < |fs| && fs[i].key == k;
      assert fs[1..][i - 1].key == k;
    }
  }

  /** A set of keys has one sorted list. */
  lemma {:induction false} SortedKeysAreUnique(fs: seq<Field>, gs: seq<Field>)
    requires Sorted(fs) && Sorted(gs) && SameKeys(fs, gs)
    ensures |fs| == |gs| && forall i :: 0 <= i < |fs| ==> fs[i].key == gs[i].key
    decreases |fs|
  {
    if fs == [] || gs == [] {
      assert fs != [] ==> HasKey(fs, fs[0].key);
      assert gs != [] ==> HasKey(gs, gs[0].key);
    } else {
      HeadKeysAgree(fs, gs);
      forall k
        ensures HasKey(fs[1..], k) <==> HasKey(gs[1..], k)
      {
        TailHasKey(fs, k);
        TailHasKey(gs, k);
      }
      SortedKeysAreUnique(fs[1..], gs[1..]);
      assert forall i :: 1 <= i < |fs| ==> fs[i] == fs[1..][i - 1];
      assert forall i :: 1 <= i < |gs| ==> gs[i] == gs[1..][i - 1];
    }
  }

  lemma ListedSorted(v: Json)
    requires v.Obj? && Sound(v)
    ensures Sorted(Listed(v.fields))
  {
    SortSorts(v.fields);
    FilterSorts(SortFields(v.fields));
  }

  lemma ListedKeys(v: Json, k: Text)
    requires v.Obj? && Sound(v)
    ensures HasKey(Listed(v.fields), k) <==> k in Norm(v).fields
  {
    var fs := Listed(v.fields);
    if HasKey(fs, k) {
      var i :| 0 <= i < |fs| && fs[i].key == k;
      assert fs[i] in fs;
    }
    if k in Norm(v).fields {
      var f :| f in v.fields && f.value != Undefined && f.key == k;
      assert f in fs;
    }
  }

  lemma FieldsOfOneKey(fields: seq<Field>, f: Field, g: Field)
    requires DistinctKeys(fields) && f in fields && g in fields && f.key == g.key
    ensures f == g
  {
    var i :| 0 <= i < |fields| && fields[i] == f;
    var j :| 0 <= j < |fields| && fields[j] == g;
  }

  lemma EntryOf(v: Json, f: Field)
    requires v.Obj? && Sound(v) && f in v.fields && f.value != Undefined
    ensures Sound(f.value) && f.key in Norm(v).fields && Norm(v).fields[f.key] == Norm(f.value)
  {
    FieldsOfOneKey(v.fields, f, Field(f.key, Lookup(v.fields, f.key)));
  }

  lemma SameMapsSameLists(a: Json, b: Json)
    requires a.Obj? && b.Obj? && Sound(a) && Sound(b) && Norm(a) == Norm(b)
    ensures SameLists(a, b)
  {
    ListedSound(a);
    ListedSound(b);
    ListedSorted(a);
    ListedSorted(b);
    var fs, gs := Listed(a.fields), Listed(b.fields);
    forall k
      ensures HasKey(fs, k) <==> HasKey(gs, k)
    {
      ListedKeys(a, k);
      ListedKeys(b, k);
    }
    SortedKeysAreUnique(fs, gs);
    forall i | 0 <= i < |fs|
      ensures Norm(fs[i].value) == Norm(gs[i].value)
    {
      assert fs[i] in fs && gs[i] in gs;
      EntryOf(a, fs[i]);
      EntryOf(b, gs[i]);
    }
  }

  // ---------------------------------------------------------------- equal trees print alike

  lemma {:induction false} SameTreeSamePrint(a: Json, b: Json)
    requires Sound(a) && Sound(b) && Norm(a) == Norm(b)
    ensures Print(a) == Print(b)
    decreases a, 1, 0
  {
    if a.Arr? {
      ItemsOfSameTree(a, b);
      ItemsPrintAlike(a, a.items, b, b.items);
    } else if a.Obj? {
      SameMapsSameLists(a, b);
      FieldsPrintAlike(a, Listed(a.fields), b, Listed(b.fields));
    }
  }

  lemma ItemsOfSameTree(a: Json, b: Json)
    requires a.Arr? && Sound(a) && Sound(b) && Norm(a) == Norm(b)
    ensures b.Arr? && AllSound(a.items) && AllSound(b.items) && SameItems(a.items, b.items)
  {
    var s, t := Norm(a).items, Norm(b).items;
    assert forall i :: 0 <= i < |s| ==> s[i] == Norm(a.items[i]) && t[i] == Norm(b.items[i]);
  }

  lemma {:induction false} ItemsPrintAlike(a: Json, items: seq<Json>, b: Json, others: seq<Json>)
    requires ItemsOf(a, items) && ItemsOf(b, others) && AllSound(items) && AllSound(others)
    requires SameItems(items, others)
    ensures PrintItems(a, items) == PrintItems(b, others)
    decreases a, 0, |items|
  {
    if items != [] {
      assert items[0] in items;
      SameTreeSamePrint(items[0], others[0]);
      ItemsPrintAlike(a, items[1..], b, others[1..]);
    }
  }

  lemma {:induction false} FieldsPrintAlike(a: Json, fs: seq<Field>, b: Json, gs: seq<Field>)
    requires FieldsOf(a, fs) && FieldsOf(b, gs) && FieldsSound(fs) && FieldsSound(gs)
    requires SameFields(fs, gs)
    ensures PrintFields(a, fs) == PrintFields(b, gs)
    decreases a, 0, |fs|
  {
    if fs != [] {
      assert fs[0] in fs;
      SameTreeSamePrint(fs[0].value, gs[0].value);
      FieldsPrintAlike(a, fs[1..], b, gs[1..]);
    }
  }

  /**
   Two values print to the same text exactly when they are the same tree: key order, undefined
   fields, and the difference between undefined and null, or a date and its text, do not show.
   */
  lemma SamePrintIffSameTree(a: Json, b: Json)
    requires Sound(a) && Sound(b)
    ensures Print(a) == Print(b) <==> Norm(a) == Norm(b)
  {
    if Print(a) == Print(b) {
      Decodes(a, b, [], []);
    }
    if Norm(a) == Norm(b) {
      SameTreeSamePrint(a, b);
    }
  }

  // ---------------------------------------------------------------- the text is JSON

  // Printable letters as code units.
  function Letters(s: string): Text {
    seq(|s|, i requires 0 <= i < |s| => if s[i] as int < 0x10000 then s[i] as int else 0)
  }

  /** The literals of RFC 8259, section 3, and the empty containers; a number is its own token. */
  lemma LiteralsAreJson(token: Text)
    ensures Print(Bool(true)) == Letters("true") && Print(Bool(false)) == Letters("false")
    ensures Print(Null) == Print(Undefined) == Print(NonFinite) == Letters("null")
    ensures Print(Number(token)) == token && Print(Str([])) == Letters("\"\"")
    ensures Print(Arr([])) == Letters("[]") && Print(Obj([])) == Letters("{}")
  {
    assert Letters("\"\"") == [34, 34] && Letters("[]") == [91, 93] && Letters("{}") == [123, 125];
  }

  /** Items in order, with a comma between them. */
  lemma ArrayText(items: seq<Json>)
    requires Sound(Arr(items)) && items != []
    ensures |items| == 1 ==> Print(Arr(items)) == Letters("[") + Print(items[0]) + Letters("]")
    ensures |items| > 1 ==> Print(Arr(items)) == Letters("[") + Print(items[0]) + (Letters(",") + Print(Arr(items[1..]))[1..])
  {
    Marks();
    ItemsPrint(items);
    if |items| > 1 {
      Listing(Print(Arr(items)), Print(Arr(items[1..])), Print(items[0]), PrintItems(Arr(items[1..]), items[1..]));
    }
  }

  lemma ItemsPrint(items: seq<Json>)
    requires Sound(Arr(items)) && items != []
    ensures |items| == 1 ==> Print(Arr(items)) == [91] + Print(items[0]) + [93]
    ensures |items| > 1 ==> Print(Arr(items)) == [91] + (Print(items[0]) + ([44] + PrintItems(Arr(items[1..]), items[1..]))) + [93]
  {
    var v, rest := Arr(items), items[1..];
    if |items| == 1 {
      assert Print(items[0]) + [] == Print(items[0]);
    } else {
      assert forall i :: 0 <= i < |rest| ==> rest[i] == items[i + 1];
      ItemsPrintAlike(v, rest, Arr(rest), rest);
    }
  }

  lemma Listing(whole: Text, rest: Text, item: Text, more: Text)
    requires whole == [91] + (item + ([44] + more)) + [93] && rest == [91] + more + [93]
    ensures whole == Letters("[") + item + (Letters(",") + rest[1..])
  {
    Marks();
    assert rest[1..] == more + [93];
  }

  // The one comes first: by the first code unit that differs, a prefix before what it begins.
  ghost predicate Precedes(s: Text, t: Text) {
    exists n :: 0 <= n < |t| && n <= |s| && s[..n] == t[..n] && (n == |s| || s[n] < t[n])
  }

  lemma {:induction false} BeforeIsByUnits(s: Text, t: Text)
    requires Precedes(s, t)
    ensures Before(s, t)
    decreases |s|
  {
    var n :| 0 <= n < |t| && n <= |s| && s[..n] == t[..n] && (n == |s| || s[n] < t[n]);
    if n > 0 {
      assert s[0] == s[..n][0] == t[..n][0] == t[0];
      assert s[1..][..n - 1] == s[..n][1..] == t[..n][1..] == t[1..][..n - 1];
      BeforeIsByUnits(s[1..], t[1..]);
    }
  }

  lemma {:induction false} SortLeavesSorted(fs: seq<Field>)
    requires Sorted(fs)
    ensures SortFields(fs) == fs
    decreases |fs|
  {
    if fs != [] {
      SortLeavesSorted(fs[1..]);
      if |fs| > 1 {
        assert fs[1..][0] == fs[1];
      }
      assert [fs[0]] + fs[1..] == fs;
    }
  }

  lemma {:induction false} FilterLeavesDefined(fs: seq<Field>)
    requires forall f :: f in fs ==> f.value != Undefined
    ensures DefinedFields(fs) == fs
    decreases |fs|
  {
    if fs != [] {
      FilterLeavesDefined(fs[1..]);
      assert [fs[0]] + fs[1..] == fs;
    }
  }

  // All defined, in the order of their keys.
  ghost predicate InOrder(fs: seq<Field>) {
    && (forall f :: f in fs ==> f.value != Undefined)
    && forall i, j :: 0 <= i < j < |fs| ==> Precedes(fs[i].key, fs[j].key)
  }

  lemma InOrderStays(fs: seq<Field>)
    requires InOrder(fs)
    ensures Listed(fs) == fs
  {
    forall i, j | 0 <= i < j < |fs|
      ensures Before(fs[i].key, fs[j].key)
    {
      BeforeIsByUnits(fs[i].key, fs[j].key);
    }
    SortLeavesSorted(fs);
    FilterLeavesDefined(fs);
  }

  /**
   Members in the order of their keys, with a comma between them. Members in any other order,
   and with undefined ones among them, print alike by `SamePrintIffSameTree`.
   */
  lemma ObjectText(fs: seq<Field>)
    requires Sound(Obj(fs)) && InOrder(fs) && fs != []
    ensures |fs| == 1 ==> Print(Obj(fs)) == Letters("{") + Print(Str(fs[0].key)) + Letters(":") + Print(fs[0].value) + Letters("}")
    ensures |fs| > 1 ==>
              Print(Obj(fs)) ==
              Letters("{") + Print(Str(fs[0].key)) + Letters(":") + Print(fs[0].value) + (Letters(",") + Print(Obj(fs[1..]))[1..])
  {
    var v, key, value := Obj(fs), Quote(fs[0].key), Print(fs[0].value);
    ObjectPrints(fs);
    if |fs| == 1 {
      FieldsPrint(v, fs);
      OneMember(key, value);
    } else {
      var more := PrintFields(v, fs[1..]);
      FieldsPrint(v, fs);
      RestPrints(fs);
      Members(Print(v), PrintFields(v, fs), Print(Obj(fs[1..])), key, value, more);
    }
  }

  lemma ObjectPrints(fs: seq<Field>)
    requires InOrder(fs)
    ensures FieldsOf(Obj(fs), fs) && Print(Obj(fs)) == [123] + PrintFields(Obj(fs), fs) + [125]
  {
    InOrderStays(fs);
  }

  lemma FieldsPrint(v: Json, fs: seq<Field>)
    requires FieldsOf(v, fs) && fs != []
    ensures FieldsOf(v, fs[1..])
    ensures PrintFields(v, fs) ==
            Quote(fs[0].key) + [58] + Print(fs[0].value) + if |fs| == 1 then [] else [44] + PrintFields(v, fs[1..])
  {
  }

  lemma RestPrints(fs: seq<Field>)
    requires Sound(Obj(fs)) && InOrder(fs) && fs != [] && FieldsOf(Obj(fs), fs[1..])
    ensures Print(Obj(fs[1..])) == [123] + PrintFields(Obj(fs), fs[1..]) + [125]
  {
    assert forall i :: 0 <= i < |fs[1..]| ==> fs[1..][i] == fs[i + 1];
    ObjectPrints(fs[1..]);
    RestAlike(fs);
  }

  lemma Marks()
    ensures Letters("{") == [123] && Letters("}") == [125] && Letters("[") == [91] && Letters("]") == [93]
    ensures Letters(":") == [58] && Letters(",") == [44] && Letters("\"") == [34] && Letters("\\") == [92]
  {
  }

  lemma OneMember(key: Text, value: Text)
    ensures [123] + (key + [58] + value + []) + [125] == Letters("{") + key + Letters(":") + value + Letters("}")
  {
    Marks();
  }

  lemma Members(whole: Text, inner: Text, rest: Text, key: Text, value: Text, more: Text)
    requires whole == [123] + inner + [125] && inner == key + [58] + value + ([44] + more) && rest == [123] + more + [125]
    ensures whole == Letters("{") + key + Letters(":") + value + (Letters(",") + rest[1..])
  {
    Marks();
    assert rest[1..] == more + [125];
    Appended(key + [58] + value, more);
  }

  lemma Appended(front: Text, more: Text)
    ensures [123] + (front + ([44] + more)) + [125] == [123] + front + ([44] + (more + [125]))
  {
  }

  lemma RestAlike(fs: seq<Field>)
    requires Sound(Obj(fs)) && InOrder(fs) && fs != [] && FieldsOf(Obj(fs), fs[1..])
    ensures PrintFields(Obj(fs), fs[1..]) == PrintFields(Obj(fs[1..]), fs[1..])
  {
    var rest := fs[1..];
    assert forall i :: 0 <= i < |rest| ==> rest[i] == fs[i + 1];
    assert FieldsSound(rest) by {
      forall i | 0 <= i < |rest|
        ensures Sound(rest[i].value)
      {
        assert Sound(fs[i + 1].value);
      }
    }
    FieldsPrintAlike(Obj(fs), rest, Obj(rest), rest);
  }

  // Four lower-case hexadecimal digits.
  function HexLetters(u: unit): Text {
    var digits := Letters("0123456789abcdef");
    [digits[u / 4096], digits[u / 256 % 16], digits[u / 16 % 16], digits[u % 16]]
  }

  // A code unit or surrogate pair between quotes, by RFC 8259, section 7.
  function InString(c: Text): Text
    requires IsPoint(c)
  {
    if c == Letters("\"") then Letters("\\\"")
    else if c == Letters("\\") then Letters("\\\\")
    else if c == [8] then Letters("\\b")
    else if c == [12] then Letters("\\f")
    else if c == [10] then Letters("\\n")
    else if c == [13] then Letters("\\r")
    else if c == [9] then Letters("\\t")
    else if |c| == 1 && (c[0] < 0x20 || 0xD800 <= c[0] < 0xE000) then Letters("\\u") + HexLetters(c[0])
    else c
  }

  /** A string is its units and pairs in order; what must be escaped is, in the short form if it has one. */
  lemma StringText(c: Text, rest: Text)
    requires IsPoint(c) && (|c| == 1 && IsHigh(c[0]) && rest != [] ==> !IsLow(rest[0]))
    ensures Print(Str(c + rest)) == Letters("\"") + InString(c) + Print(Str(rest))[1..]
  {
    assert First(c + rest) == c && (c + rest)[|c|..] == rest;
    assert Print(Str(rest))[1..] == EscapeAll(rest) + [34];
    Marks();
    TokenIsInString(c);
    Bracketed([34], Token(c), EscapeAll(rest), [34]);
    Assoc([34] + Token(c), EscapeAll(rest), [34]);
    Assoc([34], Token(c), EscapeAll(rest));
  }

  lemma TokenIsInString(c: Text)
    requires IsPoint(c)
    ensures Token(c) == InString(c)
  {
    Marks();
    if |c| == 1 {
      if ShortEscape(c[0]) != 0 {
        ShortForms();
      } else if c[0] < 0x20 || 0xD800 <= c[0] < 0xE000 {
        LongForm(c[0]);
      }
      assert c == [c[0]];
    }
  }

  lemma ShortForms()
    ensures Letters("\\\"") == [92, 34] && Letters("\\\\") == [92, 92] && Letters("\\b") == [92, 98] && Letters("\\f") == [92, 102]
    ensures Letters("\\n") == [92, 110] && Letters("\\r") == [92, 114] && Letters("\\t") == [92, 116]
  {
  }

  lemma LongForm(u: unit)
    ensures Letters("\\u") + HexLetters(u) == [92, 117] + Hex4(u)
  {
    var digits := Letters("0123456789abcdef");
    assert forall d :: 0 <= d < 16 ==> digits[d] == HexUnit(d);
    assert Letters("\\u") == [92, 117];
  }

  // ---------------------------------------------------------------- the fingerprinted columns

  // A column of a product that is missing or undefined is taken as null.
  function ColumnValue(v: Json): Json {
    if v == Undefined then Null else v
  }

  // The columns of FINGERPRINT_FIELDS, in that order, as one object.
  function Subset(names: seq<Text>, columns: seq<Json>): Json
    requires |names| == |columns|
  {
    Obj(seq(|names|, i requires 0 <= i < |names| => Field(names[i], ColumnValue(columns[i]))))
  }

  lemma SubsetTree(names: seq<Text>, columns: seq<Json>, i: nat)
    requires |names| == |columns| && i < |names|
    requires forall j, k :: 0 <= j < k < |names| ==> names[j] != names[k]
    requires AllSound(columns)
    ensures var v := Subset(names, columns);
            Sound(v) && names[i] in Norm(v).fields && Norm(v).fields[names[i]] == Norm(columns[i])
  {
    var v := Subset(names, columns);
    assert Sound(v);
    EntryOf(v, v.fields[i]);
  }

  /** The text under the fingerprint changes exactly when one of its columns does. */
  lemma DriftShowsInText(names: seq<Text>, columns: seq<Json>, others: seq<Json>)
    requires |names| == |columns| == |others| && AllSound(columns) && AllSound(others)
    requires forall j, k :: 0 <= j < k < |names| ==> names[j] != names[k]
    ensures Print(Subset(names, columns)) == Print(Subset(names, others)) <==> SameItems(columns, others)
  {
    var a, b := Subset(names, columns), Subset(names, others);
    assert Sound(a) && Sound(b);
    SamePrintIffSameTree(a, b);
    SubsetEntries(names, columns, others);
    if SameItems(columns, others) {
      SubsetKeys(names, columns, a);
      SubsetKeys(names, others, b);
      MapsAgree(Norm(a).fields, Norm(b).fields);
    }
  }

  lemma SubsetEntries(names: seq<Text>, columns: seq<Json>, others: seq<Json>)
    requires |names| == |columns| == |others| && AllSound(columns) && AllSound(others)
    requires forall j, k :: 0 <= j < k < |names| ==> names[j] != names[k]
    ensures var a, b := Subset(names, columns), Subset(names, others);
            && Sound(a) && Sound(b)
            && (Norm(a) == Norm(b) ==> SameItems(columns, others))
            && (SameItems(columns, others) ==>
                forall k :: k in names ==> k in Norm(a).fields && k in Norm(b).fields && Norm(a).fields[k] == Norm(b).fields[k])
  {
    var a, b := Subset(names, columns), Subset(names, others);
    assert Sound(a) && Sound(b);
    forall i | 0 <= i < |names|
      ensures names[i] in Norm(a).fields && names[i] in Norm(b).fields
      ensures Norm(a).fields[names[i]] == Norm(columns[i]) && Norm(b).fields[names[i]] == Norm(others[i])
    {
      SubsetTree(names, columns, i);
      SubsetTree(names, others, i);
    }
    if Norm(a) == Norm(b) {
      forall i | 0 <= i < |columns|
        ensures Norm(columns[i]) == Norm(others[i])
      {
        assert names[i] in Norm(a).fields;
      }
    }
  }

  lemma SubsetKeys(names: seq<Text>, columns: seq<Json>, v: Json)
    requires |names| == |columns| && v == Subset(names, columns) && Sound(v)
    ensures forall k :: k in Norm(v).fields <==> k in names
  {
    forall k
      ensures k in Norm(v).fields <==> k in names
    {
      if k in names {
        var i :| 0 <= i < |names| && names[i] == k;
        assert v.fields[i] in v.fields;
      }
    }
  }
}
