/** The canonical text of a row's values: JSON with the entries of every object sorted by the locale's
    collation. Lists are cons lists, so that proofs follow the data. */
module CanonicalJson {
  import opened JsText
  import opened Options

  // ----- values -----

  const QUOTE: CodeUnit := 34
  const COMMA: CodeUnit := 44
  const MINUS: CodeUnit := 45
  const COLON: CodeUnit := 58
  const OPEN_BRACKET: CodeUnit := 91
  const BACKSLASH: CodeUnit := 92
  const CLOSE_BRACKET: CodeUnit := 93
  const OPEN_BRACE: CodeUnit := 123
  const CLOSE_BRACE: CodeUnit := 125
  const NULL_TEXT: Text := [110, 117, 108, 108]
  const TRUE_TEXT: Text := [116, 114, 117, 101]
  const FALSE_TEXT: Text := [102, 97, 108, 115, 101]

  predicate IsNumeralUnit(u: CodeUnit) {
    48 <= u < 58 || u == MINUS || u == 43 || u == 46 || u == 101
  }

  /** The text JavaScript prints for a finite number: digits, sign, point and exponent. */
  predicate IsNumeral(t: Text) {
    && t != [] && (t[0] == MINUS || 48 <= t[0] < 58)
    && forall i :: 0 <= i < |t| ==> IsNumeralUnit(t[i])
  }

  type Numeral = t: Text | IsNumeral(t) witness [48]

  /** `Unprintable` stands for undefined, NaN and the infinities, which JSON prints as null. */
  datatype Json =
    | Null
    | Unprintable
    | Bool(value: bool)
    | Num(numeral: Numeral)
    | Str(text: Text)
    | Arr(items: Items)
    | Obj(entries: Entries)
  datatype Items = NoItems | Item(head: Json, tail: Items)
  datatype Entries = NoEntries | Entry(key: Text, value: Json, tail: Entries)

  function Size(v: Json): nat {
    match v
    case Arr(items) => 1 + SizeItems(items)
    case Obj(entries) => 1 + SizeEntries(entries)
    case _ => 1
  }

  function SizeItems(items: Items): nat {
    if items.NoItems? then 0 else 1 + Size(items.head) + SizeItems(items.tail)
  }

  function SizeEntries(entries: Entries): nat {
    if entries.NoEntries? then 0 else 1 + Size(entries.value) + SizeEntries(entries.tail)
  }

  function Keys(entries: Entries): set<Text> {
    if entries.NoEntries? then {} else {entries.key} + Keys(entries.tail)
  }

  /** No object has one key twice, at any depth: the values JavaScript can hold. */
  predicate Proper(v: Json) {
    match v
    case Arr(items) => ProperItems(items)
    case Obj(entries) => ProperEntries(entries)
    case _ => true
  }

  predicate ProperItems(items: Items) {
    items.Item? ==> Proper(items.head) && ProperItems(items.tail)
  }

  predicate ProperEntries(entries: Entries) {
    entries.Entry? ==> entries.key !in Keys(entries.tail) && Proper(entries.value) && ProperEntries(entries.tail)
  }

  // ----- sorting by collation -----

  /** `left.localeCompare(right) <= 0` */
  type Collation = (Text, Text) -> bool

  ghost predicate TotalPreorder(le: Collation) {
    && (forall a, b :: le(a, b) || le(b, a))
    && (forall a, b, c :: le(a, b) && le(b, c) ==> le(a, c))
  }

  function Insert(le: Collation, key: Text, value: Json, sorted: Entries): Entries {
    if sorted.NoEntries? || le(key, sorted.key) then Entry(key, value, sorted)
    else Entry(sorted.key, sorted.value, Insert(le, key, value, sorted.tail))
  }

  /** The stable sort of the entries by key. */
  function Sort(le: Collation, entries: Entries): Entries {
    if entries.NoEntries? then NoEntries else Insert(le, entries.key, entries.value, Sort(le, entries.tail))
  }

  lemma {:induction false} InsertSize(le: Collation, key: Text, value: Json, sorted: Entries)
    ensures SizeEntries(Insert(le, key, value, sorted)) == 1 + Size(value) + SizeEntries(sorted)
    ensures Keys(Insert(le, key, value, sorted)) == {key} + Keys(sorted)
  {
    if sorted.Entry? && !le(key, sorted.key) {
      InsertSize(le, key, value, sorted.tail);
    }
  }

  lemma {:induction false} SortSize(le: Collation, entries: Entries)
    ensures SizeEntries(Sort(le, entries)) == SizeEntries(entries)
    ensures Keys(Sort(le, entries)) == Keys(entries)
  {
    if entries.Entry? {
      SortSize(le, entries.tail);
      InsertSize(le, entries.key, entries.value, Sort(le, entries.tail));
    }
  }

  // ----- strings -----

  function HexDigit(d: int): CodeUnit
    requires 0 <= d < 16
  {
    if d < 10 then 48 + d else 87 + d
  }

  function Hex4(u: CodeUnit): (h: Text)
    ensures |h| == 4
  {
    [HexDigit(u / 0x1000), HexDigit(u / 0x100 % 0x10), HexDigit(u / 0x10 % 0x10), HexDigit(u % 0x10)]
  }

  /** The letter of a two-unit escape. */
  function ShortEscape(u: CodeUnit): Option<CodeUnit> {
    if u == 8 then Some(98) else if u == 9 then Some(116) else if u == 10 then Some(110)
    else if u == 12 then Some(102) else if u == 13 then Some(114)
    else if u == QUOTE then Some(QUOTE) else if u == BACKSLASH then Some(BACKSLASH) else None
  }

  function EscapeUnit(u: CodeUnit, lone: bool): Text {
    var short := ShortEscape(u);
    if short.Some? then [BACKSLASH, short.value]
    else if u < 0x20 || lone then [BACKSLASH, 117] + Hex4(u)
    else [u]
  }

  /** A surrogate outside a pair; `afterHigh` says whether the unit before was a high one. */
  predicate IsLone(t: Text, afterHigh: bool)
    requires t != []
  {
    || (IsHighSurrogate(t[0]) && !(|t| > 1 && IsLowSurrogate(t[1])))
    || (IsLowSurrogate(t[0]) && !afterHigh)
  }

  function Escaped(t: Text, afterHigh: bool): Text {
    if t == [] then [] else EscapeUnit(t[0], IsLone(t, afterHigh)) + Escaped(t[1..], IsHighSurrogate(t[0]))
  }

  /** `JSON.stringify` of a string. */
  function Quoted(t: Text): Text {
    [QUOTE] + Escaped(t, false) + [QUOTE]
  }

  // ----- printing -----

  /** `stableStringify` */
  function StableStringify(le: Collation, v: Json): Text
    decreases Size(v)
  {
    match v
    case Arr(items) => [OPEN_BRACKET] + StringifyItems(le, items) + [CLOSE_BRACKET]
    case Obj(entries) =>
      SortSize(le, entries);
      [OPEN_BRACE] + StringifyEntries(le, Sort(le, entries)) + [CLOSE_BRACE]
    case Null => NULL_TEXT
    case Unprintable => NULL_TEXT
    case Bool(b) => if b then TRUE_TEXT else FALSE_TEXT
    case Num(numeral) => numeral
    case Str(text) => Quoted(text)
  }

  function StringifyItems(le: Collation, items: Items): Text
    decreases SizeItems(items)
  {
    if items.NoItems? then []
    else if items.tail.NoItems? then StableStringify(le, items.head)
    else StableStringify(le, items.head) + [COMMA] + StringifyItems(le, items.tail)
  }

  function StringifyEntries(le: Collation, entries: Entries): Text
    decreases SizeEntries(entries)
  {
    if entries.NoEntries? then []
    else
      var first := Quoted(entries.key) + [COLON] + StableStringify(le, entries.value);
      if entries.tail.NoEntries? then first else first + [COMMA] + StringifyEntries(le, entries.tail)
  }

  // ----- the ordered value that is printed -----

  /** The value with the entries of every object sorted and nothing unprintable left. */
  function Canonical(le: Collation, v: Json): Json
    decreases Size(v)
  {
    match v
    case Arr(items) => Arr(CanonicalItems(le, items))
    case Obj(entries) =>
      SortSize(le, entries);
      Obj(CanonicalEntries(le, Sort(le, entries)))
    case Unprintable => Null
    case _ => v
  }

  function CanonicalItems(le: Collation, items: Items): Items
    decreases SizeItems(items)
  {
    if items.NoItems? then NoItems else Item(Canonical(le, items.head), CanonicalItems(le, items.tail))
  }

  function CanonicalEntries(le: Collation, entries: Entries): Entries
    decreases SizeEntries(entries)
  {
    if entries.NoEntries? then NoEntries
    else Entry(entries.key, Canonical(le, entries.value), CanonicalEntries(le, entries.tail))
  }

  /** Plain JSON text, in the order given. */
  function Print(v: Json): Text {
    match v
    case Arr(items) => [OPEN_BRACKET] + PrintItems(items) + [CLOSE_BRACKET]
    case Obj(entries) => [OPEN_BRACE] + PrintEntries(entries) + [CLOSE_BRACE]
    case Null => NULL_TEXT
    case Unprintable => NULL_TEXT
    case Bool(b) => if b then TRUE_TEXT else FALSE_TEXT
    case Num(numeral) => numeral
    case Str(text) => Quoted(text)
  }

  function PrintItems(items: Items): Text {
    if items.NoItems? then []
    else if items.tail.NoItems? then Print(items.head)
    else Print(items.head) + [COMMA] + PrintItems(items.tail)
  }

  function PrintEntries(entries: Entries): Text {
    if entries.NoEntries? then []
    else
      var first := Quoted(entries.key) + [COLON] + Print(entries.value);
      if entries.tail.NoEntries? then first else first + [COMMA] + PrintEntries(entries.tail)
  }

  lemma {:induction false} StringifyPrintsCanonical(le: Collation, v: Json)
    ensures StableStringify(le, v) == Print(Canonical(le, v))
    decreases Size(v)
  {
    match v
    case Arr(items) => StringifyItemsPrints(le, items);
    case Obj(entries) =>
      SortSize(le, entries);
      StringifyEntriesPrints(le, Sort(le, entries));
    case _ =>
  }

  lemma {:induction false} StringifyItemsPrints(le: Collation, items: Items)
    ensures StringifyItems(le, items) == PrintItems(CanonicalItems(le, items))
    decreases SizeItems(items)
  {
    if items.Item? {
      StringifyPrintsCanonical(le, items.head);
      StringifyItemsPrints(le, items.tail);
    }
  }

  lemma {:induction false} StringifyEntriesPrints(le: Collation, entries: Entries)
    ensures StringifyEntries(le, entries) == PrintEntries(CanonicalEntries(le, entries))
    decreases SizeEntries(entries)
  {
    if entries.Entry? {
      StringifyPrintsCanonical(le, entries.value);
      StringifyEntriesPrints(le, entries.tail);
    }
  }

  // ----- strings can be read back -----

  function HexValue(u: CodeUnit): int {
    if u < 58 then u - 48 else u - 87
  }

  function ShortUnescape(letter: CodeUnit): CodeUnit {
    if letter == 98 then 8 else if letter == 116 then 9 else if letter == 110 then 10
    else if letter == 102 then 12 else if letter == 114 then 13 else letter
  }

  /** How long the escape or plain unit at the start is, and the unit it stands for. */
  function UnitWidth(t: Text): nat {
    if |t| < 2 || t[0] != BACKSLASH then 1 else if t[1] == 117 then 6 else 2
  }

  function UnitValue(t: Text): int
    requires t != [] && UnitWidth(t) <= |t|
  {
    match UnitWidth(t)
    case 1 => t[0]
    case 2 => ShortUnescape(t[1])
    case _ => 0x1000 * HexValue(t[2]) + 0x100 * HexValue(t[3]) + 0x10 * HexValue(t[4]) + HexValue(t[5])
  }

  lemma HexReadsBack(u: CodeUnit)
    ensures var h := Hex4(u); 0x1000 * HexValue(h[0]) + 0x100 * HexValue(h[1]) + 0x10 * HexValue(h[2]) + HexValue(h[3]) == u
  {
    var q := u / 0x10;
    var r := q / 0x10;
    assert u / 0x100 == r && u / 0x1000 == r / 0x10;
    assert u == 0x10 * q + u % 0x10 && q == 0x10 * r + q % 0x10 && r == 0x10 * (r / 0x10) + r % 0x10;
  }

  lemma UnitReadsBack(u: CodeUnit, lone: bool, rest: Text)
    ensures var e := EscapeUnit(u, lone); var t := e + rest;
      t[0] != QUOTE && UnitWidth(t) == |e| > 0 && UnitValue(t) == u && t[|e|..] == rest
  {
    HexReadsBack(u);
    var e := EscapeUnit(u, lone);
    hide Hex4;
    assert forall i :: 0 <= i < |e| ==> (e + rest)[i] == e[i];
  }

  lemma EscapedStarts(a: Text, after: bool, r: Text)
    ensures var s := Escaped(a, after) + ([QUOTE] + r);
      if a == [] then s == [QUOTE] + r else
        && s[0] != QUOTE && UnitWidth(s) <= |s| && UnitValue(s) == a[0]
        && s[UnitWidth(s)..] == Escaped(a[1..], IsHighSurrogate(a[0])) + ([QUOTE] + r)
  {
    hide EscapeUnit, UnitWidth, UnitValue, IsLone, IsHighSurrogate;
    if a == [] {
      assert Escaped(a, after) + ([QUOTE] + r) == [QUOTE] + r;
    } else {
      var e, tail := EscapeUnit(a[0], IsLone(a, after)), Escaped(a[1..], IsHighSurrogate(a[0]));
      UnitReadsBack(a[0], IsLone(a, after), tail + ([QUOTE] + r));
      Regroup(e, tail, [QUOTE] + r);
    }
  }

  lemma Regroup(a: Text, b: Text, c: Text)
    ensures (a + b) + c == a + (b + c)
  {
  }

  /** A string's units up to the closing quotation mark, and what follows it. */
  function ReadUnits(t: Text): (r: Option<(Text, Text)>)
    ensures r.Some? ==> |r.value.1| < |t|
    decreases |t|
  {
    if t == [] then None
    else if t[0] == 34 then Some(([], t[1..]))
    else if UnitWidth(t) > |t| || !(0 <= UnitValue(t) < 0x1_0000) then None
    else match ReadUnits(t[UnitWidth(t)..])
      case None => None
      case Some((units, rest)) => Some(([UnitValue(t)] + units, rest))
  }

  lemma {:induction false} EscapedReadsBack(a: Text, after: bool, r: Text)
    ensures ReadUnits(Escaped(a, after) + ([QUOTE] + r)) == Some((a, r))
    decreases |a|
  {
    EscapedStarts(a, after, r);
    hide Escaped, UnitWidth, UnitValue, EscapeUnit, IsLone;
    if a != [] {
      EscapedReadsBack(a[1..], IsHighSurrogate(a[0]), r);
      assert a == [a[0]] + a[1..];
    } else {
      assert r == ([QUOTE] + r)[1..];
    }
  }

  /** A printed string reads back as the string and what follows it. */
  lemma QuotedReadsBack(a: Text, r: Text)
    ensures var t := Quoted(a) + r; t != [] && t[0] == 34 && ReadUnits(t[1..]) == Some((a, r))
  {
    hide Escaped, ReadUnits;
    EscapedReadsBack(a, false, r);
    assert (Quoted(a) + r)[1..] == Escaped(a, false) + ([QUOTE] + r);
  }

  lemma {:induction false} QuotedInjective(a: Text, b: Text, r: Text, q: Text)
    requires Quoted(a) + r == Quoted(b) + q
    ensures a == b && r == q
  {
    hide Quoted, ReadUnits;
    QuotedReadsBack(a, r);
    QuotedReadsBack(b, q);
  }

  /** Only what has to be escaped is: the quotation mark, the backslash, control characters and surrogates
      without a partner, in two units where there is a short form and in six where there is none. */
  lemma EscapesOnlyWhatItMust(u: CodeUnit, lone: bool)
    ensures EscapeUnit(u, lone) == [u] <==> !(u == 34 || u == 92 || u < 0x20 || lone)
    ensures |EscapeUnit(u, lone)| == 2 <==> u in {8, 9, 10, 12, 13, 34, 92}
    ensures |EscapeUnit(u, lone)| == 6 <==> (u < 0x20 || lone) && u !in {8, 9, 10, 12, 13, 34, 92}
  {
  }
}
