/** The printed text determines the ordered value: JSON read back value by value. */
module CanonicalJsonText {
  import opened JsText
  import opened Options
  import opened CanonicalJson

  // ----- what a value starts and ends with -----

  predicate Printable(v: Json) {
    match v
    case Unprintable => false
    case Arr(items) => PrintableItems(items)
    case Obj(entries) => PrintableEntries(entries)
    case _ => true
  }

  predicate PrintableItems(items: Items) {
    items.Item? ==> Printable(items.head) && PrintableItems(items.tail)
  }

  predicate PrintableEntries(entries: Entries) {
    entries.Entry? ==> Printable(entries.value) && PrintableEntries(entries.tail)
  }

  /** The first unit tells the kind of value. */
  predicate Opens(v: Json, u: CodeUnit) {
    match v
    case Null => u == 110
    case Unprintable => u == 110
    case Bool(b) => u == if b then 116 else 102
    case Num(_) => u == MINUS || 48 <= u < 58
    case Str(_) => u == QUOTE
    case Arr(_) => u == OPEN_BRACKET
    case Obj(_) => u == OPEN_BRACE
  }

  lemma FirstUnit(v: Json, r: Text)
    ensures Print(v) + r != [] && Opens(v, (Print(v) + r)[0])
  {
    hide Escaped, PrintItems, PrintEntries;
  }

  /** What may follow a value inside an array or object, or at the end. */
  predicate Delimited(r: Text) {
    r == [] || r[0] == COMMA || r[0] == CLOSE_BRACKET || r[0] == CLOSE_BRACE
  }

  // ----- items and entries as a stream -----

  /** What follows an item: the closing bracket, or a comma and the next items. */
  function AfterItem(tail: Items, r: Text): Text {
    if tail.NoItems? then [CLOSE_BRACKET] + r else [COMMA] + (PrintItems(tail) + ([CLOSE_BRACKET] + r))
  }

  lemma ItemsStream(items: Items, r: Text)
    ensures PrintItems(items) + ([CLOSE_BRACKET] + r)
         == if items.NoItems? then [CLOSE_BRACKET] + r else Print(items.head) + AfterItem(items.tail, r)
  {
    hide Print;
    if items.Item? && items.tail.Item? {
      Regroup3(Print(items.head), [COMMA], PrintItems(items.tail), [CLOSE_BRACKET] + r);
    }
  }

  lemma Regroup3(a: Text, b: Text, c: Text, d: Text)
    ensures a + b + c + d == a + (b + (c + d))
  {
  }

  function AfterEntry(tail: Entries, r: Text): Text {
    if tail.NoEntries? then [CLOSE_BRACE] + r else [COMMA] + (PrintEntries(tail) + ([CLOSE_BRACE] + r))
  }

  lemma EntriesStream(entries: Entries, r: Text)
    ensures PrintEntries(entries) + ([CLOSE_BRACE] + r)
         == if entries.NoEntries? then [CLOSE_BRACE] + r
            else Quoted(entries.key) + ([COLON] + (Print(entries.value) + AfterEntry(entries.tail, r)))
  {
    hide Print, Quoted;
    if entries.Entry? {
      var k, p := Quoted(entries.key), Print(entries.value);
      if entries.tail.Entry? {
        Regroup3(k + [COLON] + p, [COMMA], PrintEntries(entries.tail), [CLOSE_BRACE] + r);
      }
      Regroup3(k, [COLON], p, AfterEntry(entries.tail, r));
    }
  }

  lemma EntryOpens(key: Text, rest: Text)
    ensures (Quoted(key) + rest)[0] == QUOTE
  {
    hide Escaped;
  }

  // ----- a reader, after RFC 8259 -----

  function NumeralWidth(t: Text): nat {
    if t == [] || !IsNumeralUnit(t[0]) then 0 else 1 + NumeralWidth(t[1..])
  }

  lemma {:induction false} NumeralWidthFits(t: Text)
    ensures NumeralWidth(t) <= |t|
  {
    if t != [] && IsNumeralUnit(t[0]) { NumeralWidthFits(t[1..]); }
  }

  /** A value at the start of the text, and what follows it. */
  function ReadValue(t: Text): (r: Option<(Json, Text)>)
    ensures r.Some? ==> |r.value.1| < |t|
    decreases |t|, 0
  {
    if t == [] then None
    else if t[0] == 34 then
      match ReadUnits(t[1..])
      case None => None
      case Some((text, rest)) => Some((Str(text), rest))
    else if t[0] == 91 then
      if |t| > 1 && t[1] == 93 then Some((Arr(NoItems), t[2..]))
      else match ReadItems(t[1..])
        case None => None
        case Some((items, rest)) => Some((Arr(items), rest))
    else if t[0] == 123 then
      if |t| > 1 && t[1] == 125 then Some((Obj(NoEntries), t[2..]))
      else match ReadEntries(t[1..])
        case None => None
        case Some((entries, rest)) => Some((Obj(entries), rest))
    else if [110, 117, 108, 108] <= t then Some((Null, t[4..]))
    else if [116, 114, 117, 101] <= t then Some((Bool(true), t[4..]))
    else if [102, 97, 108, 115, 101] <= t then Some((Bool(false), t[5..]))
    else
      NumeralWidthFits(t);
      var n := NumeralWidth(t);
      if n > 0 && IsNumeral(t[..n]) then Some((Num(t[..n]), t[n..])) else None
  }

  /** Values separated by commas, up to the closing bracket. */
  function ReadItems(t: Text): (r: Option<(Items, Text)>)
    ensures r.Some? ==> |r.value.1| < |t|
    decreases |t|, 1
  {
    match ReadValue(t)
    case None => None
    case Some((head, rest)) =>
      if rest == [] then None
      else if rest[0] == 93 then Some((Item(head, NoItems), rest[1..]))
      else if rest[0] != 44 then None
      else match ReadItems(rest[1..])
        case None => None
        case Some((tail, end)) => Some((Item(head, tail), end))
  }

  /** A name, a colon and a value. */
  function ReadEntry(t: Text): (r: Option<(Text, Json, Text)>)
    ensures r.Some? ==> |r.value.2| < |t|
    decreases |t|, 1
  {
    if t == [] || t[0] != 34 then None
    else match ReadUnits(t[1..])
      case None => None
      case Some((key, rest)) =>
        if rest == [] || rest[0] != 58 then None
        else match ReadValue(rest[1..])
          case None => None
          case Some((value, end)) => Some((key, value, end))
  }

  /** Names and values separated by commas, up to the closing brace. */
  function ReadEntries(t: Text): (r: Option<(Entries, Text)>)
    ensures r.Some? ==> |r.value.1| < |t|
    decreases |t|, 2
  {
    match ReadEntry(t)
    case None => None
    case Some((key, value, rest)) =>
      if rest == [] then None
      else if rest[0] == 125 then Some((Entry(key, value, NoEntries), rest[1..]))
      else if rest[0] != 44 then None
      else match ReadEntries(rest[1..])
        case None => None
        case Some((tail, end)) => Some((Entry(key, value, tail), end))
  }

  // ----- what is printed reads back -----

  lemma {:induction false} NumeralWidthIs(a: Text, r: Text)
    requires Delimited(r) && forall i :: 0 <= i < |a| ==> IsNumeralUnit(a[i])
    ensures NumeralWidth(a + r) == |a|
    decreases |a|
  {
    if a == [] {
      assert a + r == r;
    } else {
      assert (a + r)[1..] == a[1..] + r;
      NumeralWidthIs(a[1..], r);
    }
  }

  lemma NumeralReadsBack(a: Numeral, r: Text)
    requires Delimited(r)
    ensures ReadValue(a + r) == Some((Num(a), r))
  {
    NumeralWidthIs(a, r);
    assert (a + r)[0] == a[0] && (a + r)[..|a|] == a && (a + r)[|a|..] == r;
    hide NumeralWidth, ReadUnits, ReadItems, ReadEntries;
  }

  lemma WordReadsBack(v: Json, r: Text)
    requires v.Null? || v.Bool?
    ensures ReadValue(Print(v) + r) == Some((v, r))
  {
    hide NumeralWidth, ReadUnits, ReadItems, ReadEntries;
    var t := Print(v) + r;
    assert t[0] == Print(v)[0] && t[|Print(v)|..] == r;
    assert Print(v) <= t;
  }

  lemma StringReadsBack(text: Text, r: Text)
    ensures ReadValue(Quoted(text) + r) == Some((Str(text), r))
  {
    hide Quoted, NumeralWidth, ReadUnits, ReadItems, ReadEntries;
    QuotedReadsBack(text, r);
  }

  /** A printed value reads back as the value and what follows it. */
  lemma {:induction false} PrintReadsBack(v: Json, r: Text)
    requires Printable(v) && Delimited(r)
    ensures ReadValue(Print(v) + r) == Some((v, r))
    decreases v
  {
    hide ReadValue, ReadItems, ReadEntries, PrintItems, PrintEntries, Quoted, Delimited;
    match v
    case Arr(items) => ArrayReadsBack(items, r);
    case Obj(entries) => ObjectReadsBack(entries, r);
    case Str(text) => StringReadsBack(text, r);
    case Num(numeral) => NumeralReadsBack(numeral, r);
    case _ => WordReadsBack(v, r);
  }

  lemma {:induction false} ArrayReadsBack(items: Items, r: Text)
    requires PrintableItems(items)
    ensures ReadValue(Print(Arr(items)) + r) == Some((Arr(items), r))
    decreases items, 1
  {
    hide ReadItems, ReadEntries, ReadUnits, NumeralWidth, Escaped;
    var t, more := Print(Arr(items)) + r, PrintItems(items) + ([CLOSE_BRACKET] + r);
    assert t[0] == 91 && t[1..] == more;
    if items.NoItems? {
      assert t[1] == 93 && t[2..] == r;
    } else {
      ItemsStream(items, r);
      FirstUnit(items.head, AfterItem(items.tail, r));
      assert t[1] == more[0];
      hide Print, PrintItems, AfterItem, Printable;
      ItemsReadBack(items, r);
    }
  }

  lemma {:induction false} ItemsReadBack(items: Items, r: Text)
    requires items.Item? && PrintableItems(items)
    ensures ReadItems(PrintItems(items) + ([CLOSE_BRACKET] + r)) == Some((items, r))
    decreases items, 0
  {
    hide ReadValue, Print, Printable, PrintItems;
    ItemsStream(items, r);
    var rest := AfterItem(items.tail, r);
    PrintReadsBack(items.head, rest);
    if items.tail.NoItems? {
      assert rest[1..] == r;
    } else {
      assert rest[1..] == PrintItems(items.tail) + ([CLOSE_BRACKET] + r);
      ItemsReadBack(items.tail, r);
    }
  }

  lemma {:induction false} ObjectReadsBack(entries: Entries, r: Text)
    requires PrintableEntries(entries)
    ensures ReadValue(Print(Obj(entries)) + r) == Some((Obj(entries), r))
    decreases entries, 1
  {
    hide ReadItems, ReadEntries, ReadUnits, NumeralWidth, Escaped, Print, PrintEntries;
    if entries.NoEntries? {
      EmptyObjectReadsBack(r);
    } else {
      var more := PrintEntries(entries) + ([CLOSE_BRACE] + r);
      ObjectOpens(entries, r);
      assert ([OPEN_BRACE] + more)[1..] == more;
      hide AfterEntry, Printable;
      EntriesReadBack(entries, r);
    }
  }

  lemma EmptyObjectReadsBack(r: Text)
    ensures ReadValue(Print(Obj(NoEntries)) + r) == Some((Obj(NoEntries), r))
  {
    hide ReadItems, ReadEntries, ReadUnits, NumeralWidth;
    var t := Print(Obj(NoEntries)) + r;
    assert t[0] == 123 && t[1] == 125 && t[2..] == r;
  }

  lemma ObjectOpens(entries: Entries, r: Text)
    requires entries.Entry?
    ensures var more := PrintEntries(entries) + ([CLOSE_BRACE] + r);
      Print(Obj(entries)) + r == [OPEN_BRACE] + more && more != [] && more[0] == QUOTE
  {
    hide Print, PrintEntries, Quoted;
    EntriesStream(entries, r);
    EntryOpens(entries.key, [COLON] + (Print(entries.value) + AfterEntry(entries.tail, r)));
    ObjectPrints(entries, r);
  }

  lemma ObjectPrints(entries: Entries, r: Text)
    ensures Print(Obj(entries)) + r == [OPEN_BRACE] + (PrintEntries(entries) + ([CLOSE_BRACE] + r))
  {
    hide PrintEntries;
  }

  lemma EntryReadsBack(key: Text, value: Json, rest: Text)
    requires ReadValue(Print(value) + rest) == Some((value, rest))
    ensures ReadEntry(Quoted(key) + ([COLON] + (Print(value) + rest))) == Some((key, value, rest))
  {
    hide Quoted, Print, ReadUnits, ReadValue;
    var more := [COLON] + (Print(value) + rest);
    QuotedReadsBack(key, more);
    assert more[1..] == Print(value) + rest;
  }

  lemma {:induction false} EntriesReadBack(entries: Entries, r: Text)
    requires entries.Entry? && PrintableEntries(entries)
    ensures ReadEntries(PrintEntries(entries) + ([CLOSE_BRACE] + r)) == Some((entries, r))
    decreases entries, 0
  {
    hide ReadValue, ReadEntry, Quoted, Print, Printable, PrintEntries;
    EntriesStream(entries, r);
    var rest := AfterEntry(entries.tail, r);
    PrintReadsBack(entries.value, rest);
    EntryReadsBack(entries.key, entries.value, rest);
    if entries.tail.NoEntries? {
      assert rest[1..] == r;
    } else {
      assert rest[1..] == PrintEntries(entries.tail) + ([CLOSE_BRACE] + r);
      EntriesReadBack(entries.tail, r);
    }
  }

  /** A value and what follows it are determined by their text. */
  lemma {:induction false} PrintInjective(v: Json, w: Json, r: Text, q: Text)
    requires Print(v) + r == Print(w) + q && Delimited(r) && Delimited(q)
    requires Printable(v) && Printable(w)
    ensures v == w && r == q
  {
    hide ReadValue, Print, Printable, Delimited;
    PrintReadsBack(v, r);
    PrintReadsBack(w, q);
  }

  // ----- the canonical text -----

  lemma {:induction false} CanonicalIsPrintable(le: Collation, v: Json)
    ensures Printable(Canonical(le, v))
    decreases Size(v)
  {
    match v
    case Arr(items) => CanonicalItemsPrintable(le, items);
    case Obj(entries) =>
      SortSize(le, entries);
      CanonicalEntriesPrintable(le, Sort(le, entries));
    case _ =>
  }

  lemma {:induction false} CanonicalItemsPrintable(le: Collation, items: Items)
    ensures PrintableItems(CanonicalItems(le, items))
    decreases SizeItems(items)
  {
    if items.Item? {
      CanonicalIsPrintable(le, items.head);
      CanonicalItemsPrintable(le, items.tail);
    }
  }

  lemma {:induction false} CanonicalEntriesPrintable(le: Collation, entries: Entries)
    ensures PrintableEntries(CanonicalEntries(le, entries))
    decreases SizeEntries(entries)
  {
    if entries.Entry? {
      CanonicalIsPrintable(le, entries.value);
      CanonicalEntriesPrintable(le, entries.tail);
    }
  }

  /** The canonical text of a value is JSON, and reads back as the value with its entries sorted. */
  lemma CanonicalTextReadsBack(le: Collation, v: Json)
    ensures ReadValue(StableStringify(le, v)) == Some((Canonical(le, v), []))
  {
    hide Print, Printable, Canonical, StableStringify, ReadValue;
    StringifyPrintsCanonical(le, v);
    CanonicalIsPrintable(le, v);
    PrintReadsBack(Canonical(le, v), []);
    assert Print(Canonical(le, v)) + [] == Print(Canonical(le, v));
  }

  /** Two values have the same canonical text exactly when they have the same canonical order, and no
      canonical text continues another up to a delimiter. */
  lemma TextDeterminesCanonical(le: Collation, v: Json, w: Json)
    ensures StableStringify(le, v) == StableStringify(le, w) <==> Canonical(le, v) == Canonical(le, w)
  {
    hide Print, Printable, Canonical, StableStringify;
    StringifyPrintsCanonical(le, v);
    StringifyPrintsCanonical(le, w);
    CanonicalIsPrintable(le, v);
    CanonicalIsPrintable(le, w);
    if StableStringify(le, v) == StableStringify(le, w) {
      PrintInjective(Canonical(le, v), Canonical(le, w), [], []);
    }
  }
}
