/** The canonical text as a function of the value: equal exactly when the values are equal up to the order
    of object entries, provided the collation tells the keys of each object apart. */
module CanonicalJsonTheorems {
  import opened JsText
  import opened CanonicalJson
  import opened CanonicalJsonText

  // ----- what a value means: objects are maps -----

  datatype Value =
    | VNull
    | VBool(value: bool)
    | VNum(numeral: Numeral)
    | VStr(text: Text)
    | VArr(items: seq<Value>)
    | VObj(fields: map<Text, Value>)

  function Denote(v: Json): Value {
    match v
    case Null => VNull
    case Unprintable => VNull
    case Bool(b) => VBool(b)
    case Num(numeral) => VNum(numeral)
    case Str(text) => VStr(text)
    case Arr(items) => VArr(DenoteItems(items))
    case Obj(entries) => VObj(DenoteEntries(entries))
  }

  function DenoteItems(items: Items): seq<Value> {
    if items.NoItems? then [] else [Denote(items.head)] + DenoteItems(items.tail)
  }

  function DenoteEntries(entries: Entries): map<Text, Value> {
    if entries.NoEntries? then map[] else DenoteEntries(entries.tail)[entries.key := Denote(entries.value)]
  }

  lemma {:induction false} FieldsAreKeys(entries: Entries)
    ensures DenoteEntries(entries).Keys == Keys(entries)
  {
    if entries.Entry? {
      FieldsAreKeys(entries.tail);
    }
  }

  // ----- sorting keeps the value -----

  lemma UpdatesCommute(m: map<Text, Value>, j: Text, x: Value, k: Text, y: Value)
    requires j != k
    ensures m[j := x][k := y] == m[k := y][j := x]
  {
  }

  lemma {:induction false} InsertKeeps(le: Collation, key: Text, value: Json, sorted: Entries)
    requires key !in Keys(sorted) && ProperEntries(sorted) && Proper(value)
    ensures ProperEntries(Insert(le, key, value, sorted))
    ensures DenoteEntries(Insert(le, key, value, sorted)) == DenoteEntries(sorted)[key := Denote(value)]
  {
    InsertSize(le, key, value, sorted);
    if sorted.Entry? && !le(key, sorted.key) {
      InsertSize(le, key, value, sorted.tail);
      InsertKeeps(le, key, value, sorted.tail);
      hide Denote, Proper;
      UpdatesCommute(DenoteEntries(sorted.tail), key, Denote(value), sorted.key, Denote(sorted.value));
    }
  }

  lemma {:induction false} SortKeeps(le: Collation, entries: Entries)
    requires ProperEntries(entries)
    ensures ProperEntries(Sort(le, entries)) && DenoteEntries(Sort(le, entries)) == DenoteEntries(entries)
  {
    if entries.Entry? {
      SortSize(le, entries.tail);
      SortKeeps(le, entries.tail);
      InsertKeeps(le, entries.key, entries.value, Sort(le, entries.tail));
    }
  }

  lemma {:induction false} CanonicalKeeps(le: Collation, v: Json)
    requires Proper(v)
    ensures Denote(Canonical(le, v)) == Denote(v)
    decreases Size(v)
  {
    match v
    case Arr(items) => CanonicalItemsKeep(le, items);
    case Obj(entries) =>
      SortSize(le, entries);
      SortKeeps(le, entries);
      CanonicalEntriesKeep(le, Sort(le, entries));
    case _ =>
  }

  lemma {:induction false} CanonicalItemsKeep(le: Collation, items: Items)
    requires ProperItems(items)
    ensures DenoteItems(CanonicalItems(le, items)) == DenoteItems(items)
    decreases SizeItems(items)
  {
    if items.Item? {
      CanonicalKeeps(le, items.head);
      CanonicalItemsKeep(le, items.tail);
    }
  }

  lemma {:induction false} CanonicalEntriesKeep(le: Collation, entries: Entries)
    requires ProperEntries(entries)
    ensures DenoteEntries(CanonicalEntries(le, entries)) == DenoteEntries(entries)
    decreases SizeEntries(entries)
  {
    if entries.Entry? {
      CanonicalKeeps(le, entries.value);
      CanonicalEntriesKeep(le, entries.tail);
    }
  }

  /** Equal texts come from equal values, whatever the collation does. */
  lemma TextDeterminesValue(le: Collation, v: Json, w: Json)
    requires Proper(v) && Proper(w) && StableStringify(le, v) == StableStringify(le, w)
    ensures Denote(v) == Denote(w)
  {
    hide Canonical, Denote, StableStringify, Proper;
    TextDeterminesCanonical(le, v, w);
    CanonicalKeeps(le, v);
    CanonicalKeeps(le, w);
  }

  // ----- one sorted order for each value -----

  predicate Sorted(le: Collation, entries: Entries) {
    entries.Entry? ==> (forall k :: k in Keys(entries.tail) ==> le(entries.key, k)) && Sorted(le, entries.tail)
  }

  lemma {:induction false} InsertSorts(le: Collation, key: Text, value: Json, sorted: Entries)
    requires TotalPreorder(le) && Sorted(le, sorted)
    ensures Sorted(le, Insert(le, key, value, sorted))
  {
    if sorted.Entry? {
      if le(key, sorted.key) {
        forall k | k in Keys(sorted.tail) ensures le(key, k) {
          assert le(sorted.key, k);
        }
      } else {
        assert le(sorted.key, key);
        InsertSorts(le, key, value, sorted.tail);
        InsertSize(le, key, value, sorted.tail);
      }
    }
  }

  lemma {:induction false} SortSorts(le: Collation, entries: Entries)
    requires TotalPreorder(le)
    ensures Sorted(le, Sort(le, entries))
  {
    if entries.Entry? {
      SortSorts(le, entries.tail);
      InsertSorts(le, entries.key, entries.value, Sort(le, entries.tail));
    }
  }

  /** Every object at every depth has its keys in ascending order. */
  predicate SortedInside(le: Collation, v: Json) {
    match v
    case Arr(items) => SortedItems(le, items)
    case Obj(entries) => Sorted(le, entries) && SortedValues(le, entries)
    case _ => true
  }

  predicate SortedItems(le: Collation, items: Items) {
    items.Item? ==> SortedInside(le, items.head) && SortedItems(le, items.tail)
  }

  predicate SortedValues(le: Collation, entries: Entries) {
    entries.Entry? ==> SortedInside(le, entries.value) && SortedValues(le, entries.tail)
  }

  lemma {:induction false} CanonicalIsSorted(le: Collation, v: Json)
    requires TotalPreorder(le)
    ensures SortedInside(le, Canonical(le, v))
    decreases Size(v)
  {
    match v
    case Arr(items) => CanonicalItemsAreSorted(le, items);
    case Obj(entries) =>
      SortSize(le, entries);
      SortSorts(le, entries);
      CanonicalEntriesAreSorted(le, Sort(le, entries));
    case _ =>
  }

  lemma {:induction false} CanonicalItemsAreSorted(le: Collation, items: Items)
    requires TotalPreorder(le)
    ensures SortedItems(le, CanonicalItems(le, items))
    decreases SizeItems(items)
  {
    if items.Item? {
      CanonicalIsSorted(le, items.head);
      CanonicalItemsAreSorted(le, items.tail);
    }
  }

  lemma {:induction false} CanonicalEntriesAreSorted(le: Collation, entries: Entries)
    requires TotalPreorder(le) && Sorted(le, entries)
    ensures Keys(CanonicalEntries(le, entries)) == Keys(entries)
    ensures Sorted(le, CanonicalEntries(le, entries)) && SortedValues(le, CanonicalEntries(le, entries))
    decreases SizeEntries(entries)
  {
    if entries.Entry? {
      CanonicalIsSorted(le, entries.value);
      CanonicalEntriesAreSorted(le, entries.tail);
    }
  }

  /** The canonical text is JSON: it reads back to its end as the same value, up to the order of entries,
      with the keys of every object at every depth in ascending order. */
  lemma TextReadsBackSorted(le: Collation, v: Json)
    requires TotalPreorder(le) && Proper(v)
    ensures var read := ReadValue(StableStringify(le, v));
      read.Some? && read.value.1 == [] && SortedInside(le, read.value.0) && Denote(read.value.0) == Denote(v)
  {
    hide ReadValue, StableStringify, Canonical, SortedInside;
    CanonicalTextReadsBack(le, v);
    CanonicalIsSorted(le, v);
    CanonicalKeeps(le, v);
  }

  /** The collation tells any two of the keys apart. */
  predicate TieFree(le: Collation, keys: set<Text>) {
    forall a, b :: a in keys && b in keys && le(a, b) && le(b, a) ==> a == b
  }

  predicate NoTies(le: Collation, v: Json) {
    match v
    case Arr(items) => NoTiesItems(le, items)
    case Obj(entries) => TieFree(le, Keys(entries)) && NoTiesEntries(le, entries)
    case _ => true
  }

  predicate NoTiesItems(le: Collation, items: Items) {
    items.Item? ==> NoTies(le, items.head) && NoTiesItems(le, items.tail)
  }

  predicate NoTiesEntries(le: Collation, entries: Entries) {
    entries.Entry? ==> NoTies(le, entries.value) && NoTiesEntries(le, entries.tail)
  }

  lemma {:induction false} InsertNoTies(le: Collation, key: Text, value: Json, sorted: Entries)
    requires NoTies(le, value) && NoTiesEntries(le, sorted)
    ensures NoTiesEntries(le, Insert(le, key, value, sorted))
  {
    if sorted.Entry? && !le(key, sorted.key) {
      InsertNoTies(le, key, value, sorted.tail);
    }
  }

  lemma {:induction false} SortNoTies(le: Collation, entries: Entries)
    requires NoTiesEntries(le, entries)
    ensures NoTiesEntries(le, Sort(le, entries))
  {
    if entries.Entry? {
      SortNoTies(le, entries.tail);
      InsertNoTies(le, entries.key, entries.value, Sort(le, entries.tail));
    }
  }

  lemma {:induction false} CanonicalUnique(le: Collation, v: Json, w: Json)
    requires TotalPreorder(le) && Proper(v) && Proper(w) && NoTies(le, v) && Denote(v) == Denote(w)
    ensures Canonical(le, v) == Canonical(le, w)
    decreases Size(v)
  {
    match v
    case Arr(items) => CanonicalItemsUnique(le, items, w.items);
    case Obj(entries) =>
      SortSize(le, entries);
      SortKeeps(le, entries);
      SortKeeps(le, w.entries);
      SortSorts(le, entries);
      SortSorts(le, w.entries);
      SortNoTies(le, entries);
      CanonicalEntriesUnique(le, Sort(le, entries), Sort(le, w.entries));
    case _ =>
  }

  lemma {:induction false} CanonicalItemsUnique(le: Collation, a: Items, b: Items)
    requires TotalPreorder(le) && ProperItems(a) && ProperItems(b) && NoTiesItems(le, a)
    requires DenoteItems(a) == DenoteItems(b)
    ensures CanonicalItems(le, a) == CanonicalItems(le, b)
    decreases SizeItems(a)
  {
    assert a.NoItems? <==> |DenoteItems(a)| == 0;
    assert b.NoItems? <==> |DenoteItems(b)| == 0;
    if a.Item? {
      assert DenoteItems(a)[0] == Denote(a.head) && DenoteItems(b)[0] == Denote(b.head);
      assert DenoteItems(a)[1..] == DenoteItems(a.tail) && DenoteItems(b)[1..] == DenoteItems(b.tail);
      CanonicalUnique(le, a.head, b.head);
      CanonicalItemsUnique(le, a.tail, b.tail);
    }
  }

  lemma {:induction false} CanonicalEntriesUnique(le: Collation, a: Entries, b: Entries)
    requires TotalPreorder(le) && ProperEntries(a) && ProperEntries(b)
    requires Sorted(le, a) && Sorted(le, b) && TieFree(le, Keys(a)) && NoTiesEntries(le, a)
    requires DenoteEntries(a) == DenoteEntries(b)
    ensures CanonicalEntries(le, a) == CanonicalEntries(le, b)
    decreases SizeEntries(a)
  {
    FieldsAreKeys(a);
    FieldsAreKeys(b);
    if a.Entry? {
      assert a.key in Keys(b);
      SameHead(le, a, b);
      SameTails(a, b);
      CanonicalUnique(le, a.value, b.value);
      CanonicalEntriesUnique(le, a.tail, b.tail);
    }
  }

  lemma SameHead(le: Collation, a: Entries, b: Entries)
    requires TotalPreorder(le) && a.Entry? && b.Entry? && Keys(a) == Keys(b)
    requires Sorted(le, a) && Sorted(le, b) && TieFree(le, Keys(a))
    ensures a.key == b.key
  {
    assert le(a.key, a.key) && le(b.key, b.key);
    assert a.key in Keys(b) && b.key in Keys(a);
  }

  lemma SameTails(a: Entries, b: Entries)
    requires a.Entry? && b.Entry? && a.key == b.key && ProperEntries(a) && ProperEntries(b)
    requires DenoteEntries(a) == DenoteEntries(b)
    ensures Denote(a.value) == Denote(b.value) && DenoteEntries(a.tail) == DenoteEntries(b.tail)
  {
    FieldsAreKeys(a.tail);
    FieldsAreKeys(b.tail);
    var m, n := DenoteEntries(a.tail), DenoteEntries(b.tail);
    assert DenoteEntries(a)[a.key] == Denote(a.value) && DenoteEntries(b)[a.key] == Denote(b.value);
    assert m == DenoteEntries(a) - {a.key};
    assert n == DenoteEntries(b) - {a.key};
  }

  /** When no two keys of one object collate as equal, two values have the same text exactly when they are
      equal up to the order of object entries, at every depth. */
  lemma SameTextSameValue(le: Collation, v: Json, w: Json)
    requires TotalPreorder(le) && Proper(v) && Proper(w) && NoTies(le, v)
    ensures StableStringify(le, v) == StableStringify(le, w) <==> Denote(v) == Denote(w)
  {
    hide Canonical, Denote, StableStringify, Proper, NoTies;
    TextDeterminesCanonical(le, v, w);
    if StableStringify(le, v) == StableStringify(le, w) {
      TextDeterminesValue(le, v, w);
    }
    if Denote(v) == Denote(w) {
      CanonicalUnique(le, v, w);
    }
  }

  // ----- ties -----

  /** The value with the entries of every object in reverse. */
  function Reversed(v: Json): Json {
    match v
    case Arr(items) => Arr(ReversedItems(items))
    case Obj(entries) => Obj(ReversedEntries(entries))
    case _ => v
  }

  function ReversedItems(items: Items): Items {
    if items.NoItems? then NoItems else Item(Reversed(items.head), ReversedItems(items.tail))
  }

  function ReversedEntries(entries: Entries): Entries {
    if entries.NoEntries? then NoEntries
    else Append(ReversedEntries(entries.tail), entries.key, Reversed(entries.value))
  }

  function Append(entries: Entries, key: Text, value: Json): Entries {
    if entries.NoEntries? then Entry(key, value, NoEntries)
    else Entry(entries.key, entries.value, Append(entries.tail, key, value))
  }

  lemma {:induction false} AppendKeeps(entries: Entries, key: Text, value: Json)
    requires key !in Keys(entries) && ProperEntries(entries) && Proper(value)
    ensures Keys(Append(entries, key, value)) == Keys(entries) + {key}
    ensures ProperEntries(Append(entries, key, value))
    ensures DenoteEntries(Append(entries, key, value)) == DenoteEntries(entries)[key := Denote(value)]
  {
    if entries.Entry? {
      AppendKeeps(entries.tail, key, value);
    }
  }

  lemma {:induction false} ReversedKeeps(v: Json)
    requires Proper(v)
    ensures Proper(Reversed(v)) && Denote(Reversed(v)) == Denote(v)
    decreases v
  {
    match v
    case Arr(items) => ReversedItemsKeep(items);
    case Obj(entries) => ReversedEntriesKeep(entries);
    case _ =>
  }

  lemma {:induction false} ReversedItemsKeep(items: Items)
    requires ProperItems(items)
    ensures ProperItems(ReversedItems(items)) && DenoteItems(ReversedItems(items)) == DenoteItems(items)
    decreases items
  {
    if items.Item? {
      ReversedKeeps(items.head);
      ReversedItemsKeep(items.tail);
    }
  }

  lemma {:induction false} ReversedEntriesKeep(entries: Entries)
    requires ProperEntries(entries)
    ensures ProperEntries(ReversedEntries(entries)) && Keys(ReversedEntries(entries)) == Keys(entries)
    ensures DenoteEntries(ReversedEntries(entries)) == DenoteEntries(entries)
    decreases entries
  {
    if entries.Entry? {
      ReversedKeeps(entries.value);
      ReversedEntriesKeep(entries.tail);
      AppendKeeps(ReversedEntries(entries.tail), entries.key, Reversed(entries.value));
    }
  }

  /** Key `a` stands before key `b`. */
  predicate Before(a: Text, b: Text, entries: Entries) {
    entries.Entry? && ((entries.key == a && b in Keys(entries.tail)) || Before(a, b, entries.tail))
  }

  lemma {:induction false} BeforeKeys(a: Text, b: Text, entries: Entries)
    requires Before(a, b, entries)
    ensures a in Keys(entries) && b in Keys(entries)
  {
    if !(entries.key == a && b in Keys(entries.tail)) {
      BeforeKeys(a, b, entries.tail);
    }
  }

  lemma {:induction false} OneOrder(a: Text, b: Text, entries: Entries)
    requires ProperEntries(entries) && Before(a, b, entries)
    ensures !Before(b, a, entries)
  {
    BeforeKeys(a, b, entries);
    if Before(a, b, entries.tail) {
      BeforeKeys(a, b, entries.tail);
      OneOrder(a, b, entries.tail);
    } else if Before(b, a, entries.tail) {
      BeforeKeys(b, a, entries.tail);
    }
  }

  lemma {:induction false} SomeOrder(a: Text, b: Text, entries: Entries)
    requires a != b && a in Keys(entries) && b in Keys(entries)
    ensures Before(a, b, entries) || Before(b, a, entries)
  {
    if entries.key != a && entries.key != b {
      SomeOrder(a, b, entries.tail);
    }
  }

  lemma {:induction false} InsertKeepsOrder(le: Collation, key: Text, value: Json, sorted: Entries, a: Text, b: Text)
    requires Before(a, b, sorted) || (a == key && b in Keys(sorted) && le(key, b))
    ensures Before(a, b, Insert(le, key, value, sorted))
  {
    InsertSize(le, key, value, sorted);
    if sorted.Entry? && !le(key, sorted.key) {
      InsertSize(le, key, value, sorted.tail);
      if !(Before(a, b, sorted) && sorted.key == a && b in Keys(sorted.tail)) {
        InsertKeepsOrder(le, key, value, sorted.tail, a, b);
      }
    }
  }

  /** The sort is stable: entries that collate as equal keep their order. */
  lemma {:induction false} SortIsStable(le: Collation, entries: Entries, a: Text, b: Text)
    requires Before(a, b, entries) && le(a, b)
    ensures Before(a, b, Sort(le, entries))
  {
    SortSize(le, entries.tail);
    if Before(a, b, entries.tail) {
      SortIsStable(le, entries.tail, a, b);
    }
    InsertKeepsOrder(le, entries.key, entries.value, Sort(le, entries.tail), a, b);
  }

  lemma {:induction false} AppendOrder(entries: Entries, key: Text, value: Json, a: Text, b: Text)
    requires Before(a, b, entries) || (a in Keys(entries) && b == key)
    ensures Before(a, b, Append(entries, key, value)) && key in Keys(Append(entries, key, value))
    ensures Keys(entries) <= Keys(Append(entries, key, value))
  {
    AppendKeys(entries, key, value);
    AppendKeys(entries.tail, key, value);
    if !(entries.key == a && b in Keys(entries.tail) + {key}) {
      AppendOrder(entries.tail, key, value, a, b);
    }
  }

  lemma {:induction false} AppendKeys(entries: Entries, key: Text, value: Json)
    ensures Keys(Append(entries, key, value)) == Keys(entries) + {key}
  {
    if entries.Entry? {
      AppendKeys(entries.tail, key, value);
    }
  }

  lemma {:induction false} ReversedKeys(entries: Entries)
    ensures Keys(ReversedEntries(entries)) == Keys(entries)
  {
    if entries.Entry? {
      ReversedKeys(entries.tail);
      AppendKeys(ReversedEntries(entries.tail), entries.key, Reversed(entries.value));
    }
  }

  lemma {:induction false} ReversedOrder(entries: Entries, a: Text, b: Text)
    requires Before(a, b, entries)
    ensures Before(b, a, ReversedEntries(entries))
  {
    ReversedKeys(entries.tail);
    if Before(a, b, entries.tail) {
      ReversedOrder(entries.tail, a, b);
    }
    AppendOrder(ReversedEntries(entries.tail), entries.key, Reversed(entries.value), b, a);
  }

  lemma {:induction false} CanonicalOrder(le: Collation, entries: Entries, a: Text, b: Text)
    ensures Before(a, b, CanonicalEntries(le, entries)) <==> Before(a, b, entries)
    ensures Keys(CanonicalEntries(le, entries)) == Keys(entries)
    decreases SizeEntries(entries)
  {
    if entries.Entry? {
      CanonicalOrder(le, entries.tail, a, b);
    }
  }

  /** Two keys that collate as equal come out in the order they came in. */
  lemma TieShows(le: Collation, entries: Entries, a: Text, b: Text)
    requires ProperEntries(entries) && Before(a, b, entries) && le(a, b) && le(b, a)
    ensures Canonical(le, Obj(entries)) != Canonical(le, Obj(ReversedEntries(entries)))
  {
    var back := ReversedEntries(entries);
    SortIsStable(le, entries, a, b);
    ReversedOrder(entries, a, b);
    SortIsStable(le, back, b, a);
    ReversedEntriesKeep(entries);
    SortKeeps(le, back);
    OneOrder(b, a, Sort(le, back));
    CanonicalOrder(le, Sort(le, entries), a, b);
    CanonicalOrder(le, Sort(le, back), a, b);
  }

  // ----- the value under a key -----

  function At(entries: Entries, key: Text): Json
    requires key in Keys(entries)
  {
    if entries.key == key then entries.value else At(entries.tail, key)
  }

  lemma {:induction false} InsertAt(le: Collation, key: Text, value: Json, sorted: Entries, k: Text)
    requires key !in Keys(sorted) && (k == key || k in Keys(sorted))
    ensures k in Keys(Insert(le, key, value, sorted))
    ensures At(Insert(le, key, value, sorted), k) == if k == key then value else At(sorted, k)
  {
    InsertSize(le, key, value, sorted);
    if sorted.Entry? && !le(key, sorted.key) && k != sorted.key {
      InsertAt(le, key, value, sorted.tail, k);
    }
  }

  lemma {:induction false} SortAt(le: Collation, entries: Entries, k: Text)
    requires ProperEntries(entries) && k in Keys(entries)
    ensures k in Keys(Sort(le, entries)) && At(Sort(le, entries), k) == At(entries, k)
  {
    SortSize(le, entries);
    SortSize(le, entries.tail);
    if k != entries.key {
      SortAt(le, entries.tail, k);
    }
    InsertAt(le, entries.key, entries.value, Sort(le, entries.tail), k);
  }

  lemma {:induction false} CanonicalAt(le: Collation, entries: Entries, k: Text)
    requires k in Keys(entries)
    ensures k in Keys(CanonicalEntries(le, entries))
    ensures At(CanonicalEntries(le, entries), k) == Canonical(le, At(entries, k))
    decreases SizeEntries(entries)
  {
    CanonicalOrder(le, entries, [], []);
    if k != entries.key {
      CanonicalAt(le, entries.tail, k);
    }
  }

  lemma {:induction false} AppendAt(entries: Entries, key: Text, value: Json, k: Text)
    requires key !in Keys(entries) && (k == key || k in Keys(entries))
    ensures k in Keys(Append(entries, key, value))
    ensures At(Append(entries, key, value), k) == if k == key then value else At(entries, k)
  {
    AppendKeys(entries, key, value);
    if entries.Entry? && k != entries.key {
      AppendAt(entries.tail, key, value, k);
    }
  }

  lemma {:induction false} ReversedAt(entries: Entries, k: Text)
    requires ProperEntries(entries) && k in Keys(entries)
    ensures k in Keys(ReversedEntries(entries)) && At(ReversedEntries(entries), k) == Reversed(At(entries, k))
  {
    ReversedKeys(entries);
    ReversedKeys(entries.tail);
    if k != entries.key {
      ReversedAt(entries.tail, k);
    }
    AppendAt(ReversedEntries(entries.tail), entries.key, Reversed(entries.value), k);
  }

  lemma SameCanonicalAt(le: Collation, entries: Entries, k: Text)
    requires ProperEntries(entries) && k in Keys(entries)
    requires Canonical(le, Obj(entries)) == Canonical(le, Obj(ReversedEntries(entries)))
    ensures Canonical(le, At(entries, k)) == Canonical(le, Reversed(At(entries, k)))
  {
    var back := ReversedEntries(entries);
    ReversedEntriesKeep(entries);
    ReversedAt(entries, k);
    SortAt(le, entries, k);
    SortAt(le, back, k);
    CanonicalAt(le, Sort(le, entries), k);
    CanonicalAt(le, Sort(le, back), k);
  }

  lemma {:induction false} AllAtNoTies(le: Collation, all: Entries, some: Entries)
    requires ProperEntries(all) && ProperEntries(some) && Keys(some) <= Keys(all)
    requires forall k :: k in Keys(some) ==> At(some, k) == At(all, k)
    requires Canonical(le, Obj(all)) == Canonical(le, Obj(ReversedEntries(all)))
    ensures NoTiesEntries(le, some)
    decreases some, 0
  {
    hide Canonical, Reversed, ReversedEntries;
    if some.Entry? {
      assert some.key in Keys(some) && At(some, some.key) == some.value;
      SameCanonicalAt(le, all, some.key);
      ReversalShowsTies(le, some.value);
      forall k | k in Keys(some.tail) ensures At(some.tail, k) == At(all, k) {
        assert k in Keys(some) && At(some, k) == At(some.tail, k);
      }
      AllAtNoTies(le, all, some.tail);
    }
  }

  /** If reversing every object leaves the canonical order as it is, no object has ties. */
  lemma {:induction false} ReversalShowsTies(le: Collation, v: Json)
    requires Proper(v) && Canonical(le, v) == Canonical(le, Reversed(v))
    ensures NoTies(le, v)
    decreases v, 1
  {
    match v
    case Arr(items) => ItemsShowTies(le, items);
    case Obj(entries) =>
      forall a, b | a in Keys(entries) && b in Keys(entries) && le(a, b) && le(b, a) ensures a == b {
        if a != b {
          SomeOrder(a, b, entries);
          if Before(a, b, entries) { TieShows(le, entries, a, b); } else { TieShows(le, entries, b, a); }
        }
      }
      AllAtNoTies(le, entries, entries);
    case _ =>
  }

  lemma {:induction false} ItemsShowTies(le: Collation, items: Items)
    requires ProperItems(items) && CanonicalItems(le, items) == CanonicalItems(le, ReversedItems(items))
    ensures NoTiesItems(le, items)
    decreases items
  {
    if items.Item? {
      ReversalShowsTies(le, items.head);
      ItemsShowTies(le, items.tail);
    }
  }

  /** The text is the same for every order of the entries exactly when no object, at any depth, has two
      keys that collate as equal. */
  lemma OrderIrrelevantExactlyWhenNoTies(le: Collation, v: Json)
    requires TotalPreorder(le) && Proper(v)
    ensures NoTies(le, v) <==>
      (forall w :: Proper(w) && Denote(w) == Denote(v) ==> StableStringify(le, w) == StableStringify(le, v))
  {
    hide Canonical, Denote, StableStringify, Proper, NoTies, Reversed;
    if NoTies(le, v) {
      forall w | Proper(w) && Denote(w) == Denote(v) ensures StableStringify(le, w) == StableStringify(le, v) {
        SameTextSameValue(le, v, w);
      }
    } else {
      ReversedKeeps(v);
      TextDeterminesCanonical(le, Reversed(v), v);
      if Canonical(le, v) == Canonical(le, Reversed(v)) {
        ReversalShowsTies(le, v);
      }
    }
  }

  /** A collation that is a total order on keys never ties. */
  lemma {:induction false} TotalOrderNeverTies(le: Collation, v: Json)
    requires forall a, b :: le(a, b) && le(b, a) ==> a == b
    ensures NoTies(le, v)
    decreases v
  {
    match v
    case Arr(items) => TotalOrderItems(le, items);
    case Obj(entries) => TotalOrderEntries(le, entries);
    case _ =>
  }

  lemma {:induction false} TotalOrderItems(le: Collation, items: Items)
    requires forall a, b :: le(a, b) && le(b, a) ==> a == b
    ensures NoTiesItems(le, items)
    decreases items
  {
    if items.Item? {
      TotalOrderNeverTies(le, items.head);
      TotalOrderItems(le, items.tail);
    }
  }

  lemma {:induction false} TotalOrderEntries(le: Collation, entries: Entries)
    requires forall a, b :: le(a, b) && le(b, a) ==> a == b
    ensures NoTiesEntries(le, entries)
    decreases entries
  {
    if entries.Entry? {
      TotalOrderNeverTies(le, entries.value);
      TotalOrderEntries(le, entries.tail);
    }
  }

  /** Any two different keys that collate as equal give one value two texts. */
  lemma TiedKeysGiveTwoTexts(le: Collation, j: Text, k: Text)
    requires j != k && le(j, k) && le(k, j)
    ensures var v, w := Obj(Entry(j, Null, Entry(k, Null, NoEntries))), Obj(Entry(k, Null, Entry(j, Null, NoEntries)));
      && Proper(v) && Proper(w) && Denote(v) == Denote(w)
      && StableStringify(le, v) != StableStringify(le, w)
  {
    var e, f := Entry(j, Null, Entry(k, Null, NoEntries)), Entry(k, Null, Entry(j, Null, NoEntries));
    TwoReversed(j, k);
    assert Keys(Entry(k, Null, NoEntries)) == {k} && Keys(Entry(j, Null, NoEntries)) == {j};
    assert ProperEntries(Entry(k, Null, NoEntries)) && ProperEntries(e);
    ReversedKeeps(Obj(e));
    TieShows(le, e, j, k);
    hide Canonical, StableStringify;
    TextDeterminesCanonical(le, Obj(e), Obj(f));
  }

  lemma TwoReversed(j: Text, k: Text)
    ensures ReversedEntries(Entry(j, Null, Entry(k, Null, NoEntries))) == Entry(k, Null, Entry(j, Null, NoEntries))
  {
    assert ReversedEntries(NoEntries) == NoEntries;
    assert ReversedEntries(Entry(k, Null, NoEntries)) == Append(NoEntries, k, Null) == Entry(k, Null, NoEntries);
    assert Append(Entry(k, Null, NoEntries), j, Null) == Entry(k, Null, Append(NoEntries, j, Null));
  }
}
