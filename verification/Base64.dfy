/**
 Strict base64 (DinoPayload.cpp, DecodeCharacter, EncodeBase64 and DecodeBase64; section 4 of
 RFC 4648).

 A symbol is a number: 0 to 63 for the alphabet, PAD for '=', -1 for any other character. The
 loops compute as the source does, on one 24-bit number for each group; its bit operations
 are written as quotients and remainders (`>> 6` is `/ 64`, `& 0x3f` is `% 64`, and `|` of
 disjoint bits is `+`). The specification splits the bytes directly.
 */
module Base64 {
  import opened Fingerprints
  import opened Numbers
  import opened Options

  const PAD := 64

  function DecodeCharacter(c: char): (v: int)
    ensures -1 <= v < 64
  {
    if 'A' <= c <= 'Z' then c as int - 'A' as int
    else if 'a' <= c <= 'z' then c as int - 'a' as int + 26
    else if '0' <= c <= '9' then c as int - '0' as int + 52
    else if c == '+' then 62
    else if c == '/' then 63
    else -1
  }

  function SymbolOf(c: char): int {
    if c == '=' then PAD else DecodeCharacter(c)
  }

  predicate IsSymbol(k: int) {
    0 <= k <= PAD
  }

  predicate AreSymbols(x: seq<int>) {
    forall i :: 0 <= i < |x| ==> IsSymbol(x[i])
  }

  // The k-th character of the alphabet A-Z a-z 0-9 + /, or the padding.
  function Letter(k: int): char
    requires IsSymbol(k)
  {
    if k < 26 then (65 + k) as char
    else if k < 52 then (71 + k) as char
    else if k < 62 then (k - 4) as char
    else if k == 62 then '+'
    else if k == 63 then '/'
    else '='
  }

  lemma LetterHasSymbol(k: int)
    requires IsSymbol(k)
    ensures SymbolOf(Letter(k)) == k
  {
  }

  lemma SymbolHasLetter(c: char)
    requires SymbolOf(c) >= 0
    ensures IsSymbol(SymbolOf(c)) && Letter(SymbolOf(c)) == c
  {
  }

  function Letters(x: seq<int>): (s: string)
    requires AreSymbols(x)
    ensures |s| == |x|
  {
    seq(|x|, i requires 0 <= i < |x| => Letter(x[i]))
  }

  function Symbols(s: string): (x: seq<int>)
    ensures |x| == |s|
  {
    seq(|s|, i requires 0 <= i < |s| => SymbolOf(s[i]))
  }

  lemma LettersReadBack(x: seq<int>)
    requires AreSymbols(x)
    ensures Symbols(Letters(x)) == x
  {
    forall i | 0 <= i < |x|
      ensures Symbols(Letters(x))[i] == x[i]
    {
      LetterHasSymbol(x[i]);
    }
  }

  lemma LettersWriteBack(s: string)
    requires AreSymbols(Symbols(s))
    ensures Letters(Symbols(s)) == s
  {
    forall i | 0 <= i < |s|
      ensures Letters(Symbols(s))[i] == s[i]
    {
      assert IsSymbol(Symbols(s)[i]);
      SymbolHasLetter(s[i]);
    }
  }

  // ---------------------------------------------------------------- encoding

  function EncodeGroup(b: bytes): (x: seq<int>)
    requires 1 <= |b| <= 3
    ensures |x| == 4
  {
    var second := if |b| > 1 then b[1] else 0;
    var third := if |b| > 2 then b[2] else 0;
    [b[0] / 4, b[0] % 4 * 16 + second / 16,
     if |b| > 1 then second % 16 * 4 + third / 64 else PAD,
     if |b| > 2 then third % 64 else PAD]
  }

  function EncodeSymbols(b: bytes): (x: seq<int>)
    decreases |b|
  {
    if b == [] then []
    else if |b| <= 3 then EncodeGroup(b)
    else EncodeGroup(b[..3]) + EncodeSymbols(b[3..])
  }

  function Encode(b: bytes): string {
    EncodesSymbols(b);
    Letters(EncodeSymbols(b))
  }

  // ---------------------------------------------------------------- decoding

  // Padding is read as zero bits.
  function Value(symbol: int): int {
    if symbol == PAD then 0 else symbol
  }

  predicate GroupIsSound(x: seq<int>, last: bool)
    requires |x| == 4
  {
    && 0 <= x[0] < 64 && 0 <= x[1] < 64 && 0 <= x[2] <= 64 && 0 <= x[3] <= 64
    && (x[2] == PAD || x[3] == PAD ==> last)
    && (x[2] == PAD ==> x[3] == PAD && x[1] % 16 == 0)
    && (x[3] == PAD ==> Value(x[2]) % 4 == 0)
  }

  function DecodeGroup(x: seq<int>, last: bool): Option<bytes>
    requires |x| == 4
  {
    if !GroupIsSound(x, last) then None
    else
      Some([x[0] * 4 + x[1] / 16] + (if x[2] == PAD then [] else [x[1] % 16 * 16 + x[2] / 4]) +
           (if x[3] == PAD then [] else [Value(x[2]) % 4 * 64 + x[3]]))
  }

  function Prepend(b: bytes, rest: Option<bytes>): Option<bytes> {
    if rest.None? then None else Some(b + rest.value)
  }

  function DecodeSymbols(x: seq<int>): Option<bytes>
    decreases |x|
  {
    if x == [] then Some([])
    else if |x| < 4 then None
    else
      var first := DecodeGroup(x[..4], |x| == 4);
      if first.None? then None else Prepend(first.value, DecodeSymbols(x[4..]))
  }

  function PaddingOf(x: seq<int>): (n: int)
    requires x != []
    ensures 0 <= n <= 2
  {
    (if x[|x| - 1] == PAD then 1 else 0) + (if |x| > 1 && x[|x| - 2] == PAD then 1 else 0)
  }

  function Decode(s: string, max: nat): Option<bytes> {
    if s == "" || |s| % 4 != 0 || |s| / 4 * 3 > max + 2 then None
    else
      var size := |s| / 4 * 3 - PaddingOf(Symbols(s));
      if size == 0 || size > max then None
      else
        var b := DecodeSymbols(Symbols(s));
        if b.Some? && |b.value| == size then b else None
  }

  // ---------------------------------------------------------------- 24 bits

  // The 24 bits of a group: a and b are the first byte, c and d the second, e and f the third,
  // and a, 16 b + c, 4 d + e, f the sextets.
  lemma GroupBits(a: int, b: int, c: int, d: int, e: int, f: int)
    requires 0 <= a < 64 && 0 <= b < 4 && 0 <= c < 16 && 0 <= d < 16 && 0 <= e < 4 && 0 <= f < 64
    ensures var v := (4 * a + b) * 65536 + (16 * c + d) * 256 + (64 * e + f);
            && v == a * 262144 + (16 * b + c) * 4096 + (4 * d + e) * 64 + f
            && v / 262144 % 64 == a && v / 4096 % 64 == 16 * b + c && v / 64 % 64 == 4 * d + e && v % 64 == f
            && v / 65536 % 256 == 4 * a + b && v / 256 % 256 == 16 * c + d && v % 256 == 64 * e + f
  {
    var v := (4 * a + b) * 65536 + (16 * c + d) * 256 + (64 * e + f);
    QuotientIs(v, 262144, a, (16 * b + c) * 4096 + (4 * d + e) * 64 + f);
    QuotientIs(v, 4096, a * 64 + (16 * b + c), (4 * d + e) * 64 + f);
    QuotientIs(a * 64 + (16 * b + c), 64, a, 16 * b + c);
    QuotientIs(v, 64, a * 4096 + (16 * b + c) * 64 + (4 * d + e), f);
    QuotientIs(a * 4096 + (16 * b + c) * 64 + (4 * d + e), 64, a * 64 + (16 * b + c), 4 * d + e);
    QuotientIs(v, 65536, 4 * a + b, (16 * c + d) * 256 + (64 * e + f));
    QuotientIs(v, 256, (4 * a + b) * 256 + (16 * c + d), 64 * e + f);
    QuotientIs((4 * a + b) * 256 + (16 * c + d), 256, 4 * a + b, 16 * c + d);
  }

  lemma SextetsOf(first: int, second: int, third: int)
    requires 0 <= first < 256 && 0 <= second < 256 && 0 <= third < 256
    ensures var v := first * 65536 + second * 256 + third;
            && v / 262144 % 64 == first / 4 && v / 4096 % 64 == first % 4 * 16 + second / 16
            && v / 64 % 64 == second % 16 * 4 + third / 64 && v % 64 == third % 64
  {
    GroupBits(first / 4, first % 4, second / 16, second % 16, third / 64, third % 64);
  }

  lemma BytesOf(v0: int, v1: int, v2: int, v3: int)
    requires 0 <= v0 < 64 && 0 <= v1 < 64 && 0 <= v2 < 64 && 0 <= v3 < 64
    ensures var v := v0 * 262144 + v1 * 4096 + v2 * 64 + v3;
            && v / 65536 % 256 == v0 * 4 + v1 / 16 && v / 256 % 256 == v1 % 16 * 16 + v2 / 4
            && v % 256 == v2 % 4 * 64 + v3
  {
    GroupBits(v0, v1 / 16, v1 % 16, v2 / 4, v2 % 4, v3);
  }

  // ---------------------------------------------------------------- one group, both ways

  lemma SextetsJoin(first: byte, second: byte, third: byte)
    ensures first / 4 * 4 + (first % 4 * 16 + second / 16) / 16 == first
    ensures (first % 4 * 16 + second / 16) % 16 * 16 + (second % 16 * 4 + third / 64) / 4 == second
    ensures (second % 16 * 4 + third / 64) % 4 * 64 + third % 64 == third
    ensures second == 0 ==> (first % 4 * 16 + second / 16) % 16 == 0
    ensures third == 0 ==> (second % 16 * 4 + third / 64) % 4 == 0
  {
    QuotientIs(first % 4 * 16 + second / 16, 16, first % 4, second / 16);
    QuotientIs(second % 16 * 4 + third / 64, 4, second % 16, third / 64);
  }

  lemma BytesSplit(v0: int, v1: int, v2: int, v3: int)
    requires 0 <= v0 < 64 && 0 <= v1 < 64 && 0 <= v2 < 64 && 0 <= v3 < 64
    ensures var first, second, third := v0 * 4 + v1 / 16, v1 % 16 * 16 + v2 / 4, v2 % 4 * 64 + v3;
            && first / 4 == v0 && first % 4 * 16 + second / 16 == v1
            && second % 16 * 4 + third / 64 == v2 && third % 64 == v3
  {
    QuotientIs(v0 * 4 + v1 / 16, 4, v0, v1 / 16);
    QuotientIs(v1 % 16 * 16 + v2 / 4, 16, v1 % 16, v2 / 4);
    QuotientIs(v2 % 4 * 64 + v3, 64, v2 % 4, v3);
  }

  lemma GroupReadsBack(b: bytes, last: bool)
    requires 1 <= |b| <= 3 && (|b| < 3 ==> last)
    ensures DecodeGroup(EncodeGroup(b), last) == Some(b)
    ensures PaddingOf(EncodeGroup(b)) == 3 - |b|
  {
    if |b| == 1 {
      assert b == [b[0]];
      OneReadsBack(b[0]);
    } else if |b| == 2 {
      assert b == [b[0], b[1]];
      TwoReadBack(b[0], b[1]);
    } else {
      assert b == [b[0], b[1], b[2]];
      ThreeReadBack(b[0], b[1], b[2], last);
    }
  }

  lemma OneReadsBack(first: byte)
    ensures DecodeGroup(EncodeGroup([first]), true) == Some([first]) && PaddingOf(EncodeGroup([first])) == 2
  {
    SextetsJoin(first, 0, 0);
    var x := EncodeGroup([first]);
    assert GroupIsSound(x, true);
    assert DecodeGroup(x, true).value == [first];
  }

  lemma TwoReadBack(first: byte, second: byte)
    ensures DecodeGroup(EncodeGroup([first, second]), true) == Some([first, second])
    ensures PaddingOf(EncodeGroup([first, second])) == 1
  {
    SextetsJoin(first, second, 0);
    var x := EncodeGroup([first, second]);
    assert GroupIsSound(x, true);
    assert DecodeGroup(x, true).value == [first, second];
  }

  lemma ThreeReadBack(first: byte, second: byte, third: byte, last: bool)
    ensures DecodeGroup(EncodeGroup([first, second, third]), last) == Some([first, second, third])
    ensures PaddingOf(EncodeGroup([first, second, third])) == 0
  {
    SextetsJoin(first, second, third);
    var x := EncodeGroup([first, second, third]);
    assert GroupIsSound(x, last);
    assert DecodeGroup(x, last).value == [first, second, third];
  }

  lemma GroupWritesBack(x: seq<int>, last: bool)
    requires |x| == 4 && DecodeGroup(x, last).Some?
    ensures var b := DecodeGroup(x, last).value;
            && 1 <= |b| <= 3 && EncodeGroup(b) == x && (|b| < 3 ==> last) && |b| == 3 - PaddingOf(x)
  {
    BytesSplit(x[0], x[1], Value(x[2]), Value(x[3]));
  }

  // ---------------------------------------------------------------- all groups, both ways

  lemma GroupEncodes(b: bytes)
    requires 1 <= |b| <= 3
    ensures AreSymbols(EncodeGroup(b))
  {
  }

  lemma {:induction false} EncodesSymbols(b: bytes)
    ensures AreSymbols(EncodeSymbols(b)) && |EncodeSymbols(b)| == (|b| + 2) / 3 * 4
    decreases |b|
  {
    if 0 < |b| <= 3 {
      GroupEncodes(b);
    } else if |b| > 3 {
      GroupEncodes(b[..3]);
      EncodesSymbols(b[3..]);
    }
  }

  lemma OneGroup(x: seq<int>)
    requires |x| == 4
    ensures DecodeSymbols(x) == DecodeGroup(x, true)
  {
    assert x[..4] == x && x[4..] == [];
    PrependNothing(DecodeGroup(x, true));
  }

  lemma PrependNothing(b: Option<bytes>)
    ensures Prepend([], b) == b && (b.Some? ==> b.value + [] == b.value)
  {
    if b.Some? {
      assert [] + b.value == b.value && b.value + [] == b.value;
    }
  }

  lemma MoreGroups(group: seq<int>, tail: seq<int>, first: bytes, rest: bytes)
    requires |group| == 4 && tail != [] && |first| == 3
    requires DecodeGroup(group, false) == Some(first) && DecodeSymbols(tail) == Some(rest)
    ensures DecodeSymbols(group + tail) == Some(first + rest) && PaddingOf(group + tail) == PaddingOf(tail)
  {
    var x := group + tail;
    assert x[..4] == group && x[4..] == tail;
  }

  lemma {:induction false} GroupsReadBack(b: bytes)
    ensures |EncodeSymbols(b)| == (|b| + 2) / 3 * 4
    ensures DecodeSymbols(EncodeSymbols(b)) == Some(b)
    ensures b != [] ==> PaddingOf(EncodeSymbols(b)) == (|b| + 2) / 3 * 3 - |b|
    decreases |b|
  {
    EncodesSymbols(b);
    if b == [] {
    } else if |b| <= 3 {
      GroupReadsBack(b, true);
      OneGroup(EncodeGroup(b));
    } else {
      GroupReadsBack(b[..3], false);
      GroupsReadBack(b[3..]);
      MoreGroups(EncodeGroup(b[..3]), EncodeSymbols(b[3..]), b[..3], b[3..]);
      assert b == b[..3] + b[3..];
    }
  }

  lemma MoreBytes(x: seq<int>, first: bytes, rest: bytes)
    requires |x| > 4 && |first| == 3 && rest != []
    requires EncodeGroup(first) == x[..4] && EncodeSymbols(rest) == x[4..]
    ensures EncodeSymbols(first + rest) == x
    ensures PaddingOf(x) == PaddingOf(x[4..]) && |x| / 4 == |x[4..]| / 4 + 1
  {
    assert (first + rest)[..3] == first && (first + rest)[3..] == rest;
    assert x == x[..4] + x[4..];
  }

  // What is decoded is encoded again, and its size follows from the padding.
  ghost predicate WritesBack(x: seq<int>, b: bytes) {
    EncodeSymbols(b) == x && (x != [] ==> b != [] && |b| == |x| / 4 * 3 - PaddingOf(x))
  }

  lemma FirstGroup(x: seq<int>) returns (first: bytes, rest: bytes)
    requires |x| > 4 && DecodeSymbols(x).Some?
    ensures DecodeGroup(x[..4], false) == Some(first) && DecodeSymbols(x[4..]) == Some(rest)
    ensures DecodeSymbols(x) == Some(first + rest)
  {
    first, rest := DecodeGroup(x[..4], false).value, DecodeSymbols(x[4..]).value;
  }

  lemma {:induction false} GroupsWriteBack(x: seq<int>)
    requires DecodeSymbols(x).Some?
    ensures WritesBack(x, DecodeSymbols(x).value)
    decreases |x|
  {
    if x == [] {
    } else if |x| == 4 {
      OneGroup(x);
      GroupWritesBack(x, true);
    } else {
      var first, rest := FirstGroup(x);
      GroupWritesBack(x[..4], false);
      GroupsWriteBack(x[4..]);
      MoreBytes(x, first, rest);
    }
  }

  lemma EncodedIsDecoded(b: bytes, max: nat)
    requires 0 < |b| <= max
    ensures Decode(Encode(b), max) == Some(b)
  {
    EncodesSymbols(b);
    LettersReadBack(EncodeSymbols(b));
    GroupsReadBack(b);
    assert |Encode(b)| / 4 == (|b| + 2) / 3;
  }

  lemma DecodedIsEncoded(s: string, max: nat)
    requires Decode(s, max).Some?
    ensures var b := Decode(s, max).value;
            Encode(b) == s && 0 < |b| <= max
  {
    GroupsWriteBack(Symbols(s));
    EncodesSymbols(Decode(s, max).value);
    LettersWriteBack(s);
  }

  /**
   The decoder accepts exactly what the encoder writes for a payload within the limit, and
   reads that payload back: no other spelling of it, and nothing else, is accepted.
   */
  lemma DecodesExactlyTheEncoded(s: string, max: nat, b: bytes)
    ensures Decode(s, max) == Some(b) <==> Encode(b) == s && 0 < |b| <= max
  {
    if Decode(s, max) == Some(b) {
      DecodedIsEncoded(s, max);
    }
    if Encode(b) == s && 0 < |b| <= max {
      EncodedIsDecoded(b, max);
    }
  }

  /** Two accepted texts that decode to one payload are one text. */
  lemma DecoderIsInjective(s: string, t: string, max: nat)
    requires Decode(s, max).Some? && Decode(s, max) == Decode(t, max)
    ensures s == t
  {
    DecodedIsEncoded(s, max);
    DecodedIsEncoded(t, max);
  }

  // ---------------------------------------------------------------- the loops

  // The group that starts at `index`.
  function GroupAt(data: bytes, index: nat): bytes
    requires index < |data|
  {
    data[index..if index + 3 <= |data| then index + 3 else |data|]
  }

  lemma EncodeNext(data: bytes, index: nat)
    requires index < |data|
    ensures EncodeSymbols(data[index..]) ==
            EncodeGroup(GroupAt(data, index)) + (if index + 3 < |data| then EncodeSymbols(data[index + 3..]) else [])
  {
    var rest := data[index..];
    if |rest| > 3 {
      assert rest[..3] == GroupAt(data, index) && rest[3..] == data[index + 3..];
    } else {
      assert rest == GroupAt(data, index);
    }
  }

  // What is still to be written from `index` on.
  function Remaining(data: bytes, index: nat): seq<int> {
    if index < |data| then EncodeSymbols(data[index..]) else []
  }

  lemma RemainingNext(data: bytes, index: nat, symbols: seq<int>)
    requires index < |data|
    ensures symbols + Remaining(data, index) ==
            symbols + EncodeGroup(GroupAt(data, index)) + Remaining(data, index + 3)
  {
    EncodeNext(data, index);
  }

  lemma RemainingAll(data: bytes)
    ensures Remaining(data, 0) == EncodeSymbols(data)
  {
    assert data[0..] == data;
  }

  method EncodeBase64(data: bytes) returns (result: string)
    ensures result == Encode(data)
  {
    result := "";
    EncodesSymbols(data);
    if |data| == 0 {
      return;
    }
    var index := 0;
    ghost var symbols := [];
    RemainingAll(data);
    while index < |data|
      invariant AreSymbols(symbols) && result == Letters(symbols)
      invariant symbols + Remaining(data, index) == Remaining(data, 0)
    {
      RemainingNext(data, index, symbols);
      var group := EncodeOneGroup(data, index);
      LettersAppend(symbols, EncodeGroup(GroupAt(data, index)));
      result := result + group;
      symbols := symbols + EncodeGroup(GroupAt(data, index));
      index := index + 3;
    }
    assert symbols + Remaining(data, index) == symbols;
  }

  lemma LettersAppend(x: seq<int>, y: seq<int>)
    requires AreSymbols(x) && AreSymbols(y)
    ensures AreSymbols(x + y) && Letters(x + y) == Letters(x) + Letters(y)
  {
  }

  // The body of the encoder's loop: the characters it pushes for the group at `index`.
  method EncodeOneGroup(data: bytes, index: nat) returns (group: string)
    requires index < |data|
    ensures AreSymbols(EncodeGroup(GroupAt(data, index))) && group == Letters(EncodeGroup(GroupAt(data, index)))
  {
    var first: int := data[index];
    var second: int := if index + 1 < |data| then data[index + 1] else 0;
    var third: int := if index + 2 < |data| then data[index + 2] else 0;
    var value := first * 65536 + second * 256 + third;
    SextetsOf(first, second, third);
    group := [Letter(value / 262144 % 64), Letter(value / 4096 % 64),
              if index + 1 < |data| then Letter(value / 64 % 64) else '=',
              if index + 2 < |data| then Letter(value % 64) else '='];
  }

  /** Decodes one payload of at most `max` bytes, or refuses. */
  method DecodeBase64(encoded: string, max: nat) returns (ok: bool, output: bytes)
    ensures ok <==> Decode(encoded, max).Some?
    ensures ok ==> Encode(output) == encoded && 0 < |output| <= max
  {
    output := [];
    if |encoded| == 0 || |encoded| % 4 != 0 {
      return false, output;
    }
    if |encoded| / 4 * 3 > max + 2 {
      return false, output;
    }
    var padding := (if encoded[|encoded| - 1] == '=' then 1 else 0) +
                   (if |encoded| > 1 && encoded[|encoded| - 2] == '=' then 1 else 0);
    var decodedSize := |encoded| / 4 * 3 - padding;
    PaddingInText(encoded);
    if decodedSize == 0 || decodedSize > max {
      return false, output;
    }
    var sound;
    sound, output := DecodeAllGroups(encoded);
    AllGroupsFrom(Symbols(encoded));
    ok := sound && |output| == decodedSize;
    if ok {
      DecodedIsEncoded(encoded, max);
    }
  }

  // The decoder's loop; it stops at the first group that is not sound.
  method DecodeAllGroups(encoded: string) returns (sound: bool, output: bytes)
    requires |encoded| % 4 == 0
    ensures DecodedFrom(Symbols(encoded), 0, []) == if sound then Some(output) else None
  {
    output := [];
    var index := 0;
    ghost var result := DecodedFrom(Symbols(encoded), 0, []);
    while index < |encoded|
      invariant index <= |encoded| && index % 4 == 0
      invariant result == DecodedFrom(Symbols(encoded), index, output)
    {
      NextGroup(index, |encoded|);
      sound, output := DecodeTurn(encoded, index, output);
      if !sound {
        return;
      }
      index := index + 4;
    }
    sound := true;
  }

  lemma NextGroup(index: nat, size: nat)
    requires index % 4 == 0 && size % 4 == 0 && index < size
    ensures index + 4 <= size && (index + 4) % 4 == 0
  {
  }

  // One turn of the loop: the group at `index`, pushed behind what was decoded before it.
  method DecodeTurn(encoded: string, index: nat, output: bytes) returns (sound: bool, next: bytes)
    requires index + 4 <= |encoded|
    ensures DecodedFrom(Symbols(encoded), index, output) ==
            if sound then DecodedFrom(Symbols(encoded), index + 4, next) else None
  {
    var group := DecodeOneGroup(encoded, index);
    if group.None? {
      return false, output;
    }
    return true, output + group.value;
  }

  // The result when `output` is what the groups before `index` decode to.
  function DecodedFrom(x: seq<int>, index: nat, output: bytes): Option<bytes>
    requires index <= |x|
    decreases |x| - index
  {
    if index == |x| then Some(output)
    else if index + 4 > |x| then None
    else
      var group := DecodeGroup(x[index..index + 4], index + 4 == |x|);
      if group.None? then None else DecodedFrom(x, index + 4, output + group.value)
  }

  lemma {:induction false} GroupsFrom(x: seq<int>, index: nat, output: bytes)
    requires index <= |x|
    ensures DecodedFrom(x, index, output) == Prepend(output, DecodeSymbols(x[index..]))
    decreases |x| - index
  {
    if index == |x| {
      assert x[index..] == [];
      PrependNothing(Some(output));
    } else if index + 4 <= |x| {
      var group := DecodeGroup(x[index..index + 4], index + 4 == |x|);
      DecodeNext(x, index, output, group);
      if group.Some? {
        GroupsFrom(x, index + 4, output + group.value);
      }
    }
  }

  lemma AllGroupsFrom(x: seq<int>)
    ensures DecodedFrom(x, 0, []) == DecodeSymbols(x)
  {
    GroupsFrom(x, 0, []);
    assert x[0..] == x;
    PrependNothing(DecodeSymbols(x));
  }

  lemma PaddingInText(s: string)
    requires s != ""
    ensures PaddingOf(Symbols(s)) ==
            (if s[|s| - 1] == '=' then 1 else 0) + (if |s| > 1 && s[|s| - 2] == '=' then 1 else 0)
  {
  }

  lemma DecodeNext(x: seq<int>, index: nat, output: bytes, group: Option<bytes>)
    requires index + 4 <= |x|
    requires group == DecodeGroup(x[index..index + 4], index + 4 == |x|)
    ensures group.None? ==> DecodeSymbols(x[index..]) == None
    ensures group.Some? ==>
              Prepend(output, DecodeSymbols(x[index..])) == Prepend(output + group.value, DecodeSymbols(x[index + 4..]))
  {
    var rest := x[index..];
    assert rest[..4] == x[index..index + 4] && rest[4..] == x[index + 4..];
    if group.Some? && DecodeSymbols(rest[4..]).Some? {
      assert output + (group.value + DecodeSymbols(rest[4..]).value) == output + group.value + DecodeSymbols(rest[4..]).value;
    }
  }

  lemma SymbolsAt(s: string, index: nat)
    requires index + 4 <= |s|
    ensures Symbols(s)[index..index + 4] ==
            [SymbolOf(s[index]), SymbolOf(s[index + 1]), SymbolOf(s[index + 2]), SymbolOf(s[index + 3])]
  {
    var x := Symbols(s)[index..index + 4];
    assert x[0] == SymbolOf(s[index]) && x[1] == SymbolOf(s[index + 1]);
    assert x[2] == SymbolOf(s[index + 2]) && x[3] == SymbolOf(s[index + 3]);
  }

  // The body of the decoder's loop: the checks and the bytes it pushes for the group at `index`.
  method DecodeOneGroup(encoded: string, index: nat) returns (group: Option<bytes>)
    requires index + 4 <= |encoded|
    ensures group == DecodeGroup(Symbols(encoded)[index..index + 4], index + 4 == |encoded|)
  {
    var isLast := index + 4 == |encoded|;
    var c0, c1, c2, c3 := encoded[index], encoded[index + 1], encoded[index + 2], encoded[index + 3];
    var v0 := DecodeCharacter(c0);
    var v1 := DecodeCharacter(c1);
    var v2 := if c2 == '=' then 0 else DecodeCharacter(c2);
    var v3 := if c3 == '=' then 0 else DecodeCharacter(c3);
    ghost var x := Symbols(encoded)[index..index + 4];
    SymbolsAt(encoded, index);

    if v0 < 0 || v1 < 0 || v2 < 0 || v3 < 0 {
      return None;
    }
    if (!isLast && (c2 == '=' || c3 == '=')) || (c2 == '=' && c3 != '=') {
      return None;
    }
    if c2 == '=' && v1 % 16 != 0 {
      return None;
    }
    if c3 == '=' && c2 != '=' && v2 % 4 != 0 {
      return None;
    }
    var more := PushBytes(v0, v1, v2, v3, c2 != '=', c3 != '=');
    return Some(more);
  }

  // The bytes of four sextets: the first always, the others unless they are padding.
  method PushBytes(v0: int, v1: int, v2: int, v3: int, second: bool, third: bool) returns (more: bytes)
    requires 0 <= v0 < 64 && 0 <= v1 < 64 && 0 <= v2 < 64 && 0 <= v3 < 64
    ensures more == [v0 * 4 + v1 / 16] + (if second then [v1 % 16 * 16 + v2 / 4] else []) +
                    (if third then [v2 % 4 * 64 + v3] else [])
  {
    BytesOf(v0, v1, v2, v3);
    var value := v0 * 262144 + v1 * 4096 + v2 * 64 + v3;
    more := [value / 65536 % 256];
    if second {
      more := more + [value / 256 % 256];
    }
    if third {
      more := more + [value % 256];
    }
  }

  // ---------------------------------------------------------------- the standard's own words

  /** The symbols are those of the base 64 alphabet, in its order (RFC 4648, table 1). */
  lemma AlphabetIsTheStandard(k: nat)
    ensures k < 26 ==> Letter(k) == "ABCDEFGHIJKLMNOPQRSTUVWXYZ"[k]
    ensures k < 26 ==> Letter(26 + k) == "abcdefghijklmnopqrstuvwxyz"[k]
    ensures k < 10 ==> Letter(52 + k) == "0123456789"[k]
    ensures Letter(62) == '+' && Letter(63) == '/' && Letter(PAD) == '='
  {
  }

  // The 24 bits of a group, with zeros for bytes that are missing.
  function BitsOf(b: bytes): int
    requires 1 <= |b| <= 3
  {
    var first: int, second: int, third: int := b[0], if |b| > 1 then b[1] else 0, if |b| > 2 then b[2] else 0;
    first * 65536 + second * 256 + third
  }

  /**
   The symbols of a group are the base 64 digits of its 24 bits, the first byte most
   significant; bytes that are missing count as zero, and symbols they alone would fill are
   padding (RFC 4648, section 4).
   */
  lemma GroupIsBaseSixtyFour(b: bytes)
    requires 1 <= |b| <= 3
    ensures var x := EncodeGroup(b);
            && x[0] * 262144 + x[1] * 4096 + Value(x[2]) * 64 + Value(x[3]) == BitsOf(b)
            && 0 <= x[0] < 64 && 0 <= x[1] < 64 && (x[2] == PAD <==> |b| == 1) && (x[3] == PAD <==> |b| < 3)
  {
    var second, third := if |b| > 1 then b[1] else 0, if |b| > 2 then b[2] else 0;
    GroupBits(b[0] / 4, b[0] % 4, second / 16, second % 16, third / 64, third % 64);
  }

  /** Groups of three bytes follow each other; only the last may be shorter. */
  lemma GroupsInOrder(b: bytes, i: nat)
    requires i < |b| && i % 3 == 0
    ensures |EncodeSymbols(b)| >= i / 3 * 4 + 4
    ensures EncodeSymbols(b)[i / 3 * 4..i / 3 * 4 + 4] == EncodeGroup(b[i..if i + 3 <= |b| then i + 3 else |b|])
    decreases i
  {
    if i == 0 {
      if |b| <= 3 {
        assert b[0..|b|] == b;
      }
    } else {
      GroupsInOrder(b[3..], i - 3);
      assert b[3..][i - 3..if i <= |b[3..]| then i else |b[3..]|] == b[i..if i + 3 <= |b| then i + 3 else |b|];
    }
  }
}
