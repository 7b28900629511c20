/** Splitting one customer-name cell into an English and an Arabic name. */
module NameLanguage {
  import opened Options

  // ----- character classes -----

  predicate IsArabic(c: char) {
    || '\U{0600}' <= c <= '\U{06FF}' || '\U{0750}' <= c <= '\U{077F}' || '\U{08A0}' <= c <= '\U{08FF}'
    || '\U{FB50}' <= c <= '\U{FDFF}' || '\U{FE70}' <= c <= '\U{FEFE}'
  }

  predicate IsLatin(c: char) {
    'A' <= c <= 'Z' || 'a' <= c <= 'z'
  }

  predicate IsSpace(c: char) {
    || '\U{0009}' <= c <= '\U{000D}' || c == ' ' || c == '\U{00A0}' || c == '\U{1680}'
    || '\U{2000}' <= c <= '\U{200A}' || c == '\U{2028}' || c == '\U{2029}' || c == '\U{202F}'
    || c == '\U{205F}' || c == '\U{3000}' || c == '\U{FEFF}'
  }

  /** What EDGE_SEPARATORS strips: white space, hyphen, en dash, em dash and slash. */
  predicate IsSeparator(c: char) {
    IsSpace(c) || c == '-' || c == '\U{2013}' || c == '\U{2014}' || c == '/'
  }

  predicate Has(p: char -> bool, s: string) {
    exists i :: 0 <= i < |s| && p(s[i])
  }

  predicate All(p: char -> bool, s: string) {
    forall i :: 0 <= i < |s| ==> p(s[i])
  }

  /** The characters of a class, in order. */
  function Keep(p: char -> bool, s: string): string {
    if s == [] then [] else (if p(s[0]) then [s[0]] else []) + Keep(p, s[1..])
  }

  function DropWhile(p: char -> bool, s: string): (t: string)
    ensures |t| <= |s|
  {
    if s != [] && p(s[0]) then DropWhile(p, s[1..]) else s
  }

  function DropTail(p: char -> bool, s: string): (t: string)
    ensures |t| <= |s|
  {
    if s != [] && p(s[|s| - 1]) then DropTail(p, s[..|s| - 1]) else s
  }

  function Strip(p: char -> bool, s: string): string {
    DropTail(p, DropWhile(p, s))
  }

  function Trim(s: string): string {
    Strip(IsSpace, s)
  }

  /** `.trim().replace(EDGE_SEPARATORS, '').trim()` */
  function CleanSpan(s: string): string {
    Trim(Strip(IsSeparator, Trim(s)))
  }

  // ----- the splitter -----

  datatype Names = Names(nameEn: Option<string>, nameAr: Option<string>)

  function FirstArabic(s: string): (i: int)
    ensures -1 <= i < |s|
    ensures i >= 0 ==> IsArabic(s[i])
    ensures forall k :: 0 <= k < (if i >= 0 then i else |s|) ==> !IsArabic(s[k])
  {
    if s == [] then -1
    else if IsArabic(s[0]) then 0
    else
      var i := FirstArabic(s[1..]);
      if i == -1 then -1 else i + 1
  }

  function LastArabic(s: string): (i: int)
    ensures -1 <= i < |s|
    ensures i >= 0 ==> IsArabic(s[i])
    ensures forall k :: i < k < |s| ==> !IsArabic(s[k])
  {
    if s == [] then -1
    else if IsArabic(s[|s| - 1]) then |s| - 1
    else LastArabic(s[..|s| - 1])
  }

  lemma FirstBeforeLast(s: string)
    ensures FirstArabic(s) == -1 <==> LastArabic(s) == -1
    ensures FirstArabic(s) <= LastArabic(s)
  {
  }

  function SplitAt(value: string, first: nat, last: nat): Option<Names>
    requires first <= last < |value|
  {
    var prefix, suffix := value[..first], value[last + 1..];
    if Trim(prefix) != [] && Trim(suffix) != [] then None
    else
      var latinSpan := CleanSpan(if Trim(prefix) != [] then prefix else suffix);
      var arabicSpan := CleanSpan(value[first..last + 1]);
      if Has(IsLatin, arabicSpan) || arabicSpan == [] || latinSpan == [] || !Has(IsLatin, latinSpan) then None
      else Some(Names(Some(latinSpan), Some(arabicSpan)))
  }

  function TrySplit(value: string): Option<Names> {
    FirstBeforeLast(value);
    if FirstArabic(value) == -1 then None else SplitAt(value, FirstArabic(value), LastArabic(value))
  }

  /** The loop over the characters; `Some` is the source's object, `None` its null. */
  method TrySplitMixedName(value: string) returns (names: Option<Names>)
    ensures names == TrySplit(value)
  {
    var firstArabic, lastArabic := -1, -1;
    for index := 0 to |value|
      invariant -1 <= firstArabic <= lastArabic < index
      invariant firstArabic == -1 <==> lastArabic == -1
      invariant firstArabic >= 0 ==> IsArabic(value[firstArabic]) && IsArabic(value[lastArabic])
      invariant forall k :: 0 <= k < (if firstArabic >= 0 then firstArabic else index) ==> !IsArabic(value[k])
      invariant forall k :: lastArabic < k < index ==> !IsArabic(value[k])
    {
      if IsArabic(value[index]) {
        if firstArabic == -1 { firstArabic := index; }
        lastArabic := index;
      }
    }
    FirstBeforeLast(value);
    assert firstArabic == FirstArabic(value) && lastArabic == LastArabic(value);
    if firstArabic == -1 { return None; }
    names := SplitAt(value, firstArabic, lastArabic);
  }

  function SplitBilingualName(raw: Option<string>): Names {
    if raw.None? || Trim(raw.value) == [] then Names(None, None)
    else
      var value := Trim(raw.value);
      var split := if Has(IsArabic, value) && Has(IsLatin, value) then TrySplit(value) else None;
      if split.Some? then split.value
      else if Has(IsArabic, value) then Names(None, Some(value))
      else Names(Some(value), None)
  }

  // ----- lemmas about trimming -----

  lemma {:induction false} DropWhileSplits(p: char -> bool, s: string) returns (dropped: string)
    ensures s == dropped + DropWhile(p, s) && All(p, dropped)
    ensures DropWhile(p, s) != [] ==> !p(DropWhile(p, s)[0])
  {
    if s != [] && p(s[0]) {
      var more := DropWhileSplits(p, s[1..]);
      dropped := [s[0]] + more;
      var rest := DropWhile(p, s[1..]);
      assert DropWhile(p, s) == rest;
      hide DropWhile;
      assert s == [s[0]] + s[1..];
      assert s == dropped + rest;
    } else {
      dropped := [];
    }
  }

  lemma {:induction false} DropTailSplits(p: char -> bool, s: string) returns (dropped: string)
    ensures s == DropTail(p, s) + dropped && All(p, dropped)
    ensures DropTail(p, s) != [] ==> !p(DropTail(p, s)[|DropTail(p, s)| - 1])
  {
    if s != [] && p(s[|s| - 1]) {
      var more := DropTailSplits(p, s[..|s| - 1]);
      dropped := more + [s[|s| - 1]];
      var rest := DropTail(p, s[..|s| - 1]);
      assert DropTail(p, s) == rest;
      hide DropTail;
      assert s == s[..|s| - 1] + [s[|s| - 1]];
      assert s == rest + dropped;
    } else {
      dropped := [];
    }
  }

  lemma StripSplits(p: char -> bool, s: string) returns (left: string, right: string)
    ensures s == left + Strip(p, s) + right && All(p, left) && All(p, right)
  {
    left := DropWhileSplits(p, s);
    right := DropTailSplits(p, DropWhile(p, s));
  }

  lemma StripNothing(p: char -> bool, s: string)
    requires s != [] && !p(s[0]) && !p(s[|s| - 1])
    ensures Strip(p, s) == s
  {
  }

  /** Cleaning a span drops separators from its two ends and nothing else. */
  lemma CleanSplits(s: string) returns (left: string, right: string)
    ensures s == left + CleanSpan(s) + right && All(IsSeparator, left) && All(IsSeparator, right)
  {
    var a := Trim(s);
    var b := Strip(IsSeparator, a);
    var l1, r1 := StripSplits(IsSpace, s);
    var l2, r2 := StripSplits(IsSeparator, a);
    var l3, r3 := StripSplits(IsSpace, b);
    left, right := l1 + l2 + l3, r3 + r2 + r1;
    Regroup(l1, l2, l3, CleanSpan(s), r3, r2, r1);
  }

  lemma Regroup(l1: string, l2: string, l3: string, m: string, r3: string, r2: string, r1: string)
    ensures l1 + (l2 + (l3 + m + r3) + r2) + r1 == (l1 + l2 + l3) + m + (r3 + r2 + r1)
  {
  }

  lemma ArabicIsDark(c: char)
    requires IsArabic(c)
    ensures !IsSeparator(c) && !IsSpace(c) && !IsLatin(c)
  {
  }

  lemma {:induction false} KeepPlus(p: char -> bool, s: string, t: string)
    ensures Keep(p, s + t) == Keep(p, s) + Keep(p, t)
    decreases |s|
  {
    if s == [] {
      assert s + t == t;
    } else {
      var head := if p(s[0]) then [s[0]] else [];
      KeepPlus(p, s[1..], t);
      KeepFirst(p, s);
      KeepFirst(p, s + t);
      hide Keep;
      assert (s + t)[1..] == s[1..] + t;
      assert Keep(p, s + t) == head + (Keep(p, s[1..]) + Keep(p, t));
    }
  }

  lemma KeepFirst(p: char -> bool, s: string)
    requires s != []
    ensures Keep(p, s) == (if p(s[0]) then [s[0]] else []) + Keep(p, s[1..])
  {
  }

  lemma {:induction false} KeepNone(p: char -> bool, s: string)
    requires !Has(p, s)
    ensures Keep(p, s) == []
    decreases |s|
  {
    if s != [] {
      assert !p(s[0]);
      assert forall i :: 0 <= i < |s[1..]| ==> s[1..][i] == s[i + 1];
      KeepNone(p, s[1..]);
    }
  }

  // ----- the promises -----

  function ArabicSpan(value: string): string
    requires FirstArabic(value) >= 0
  {
    FirstBeforeLast(value);
    value[FirstArabic(value)..LastArabic(value) + 1]
  }

  function Before(value: string): string
    requires FirstArabic(value) >= 0
  {
    value[..FirstArabic(value)]
  }

  function Behind(value: string): string
    requires FirstArabic(value) >= 0
  {
    value[LastArabic(value) + 1..]
  }

  lemma SpanIsClean(value: string)
    requires FirstArabic(value) >= 0
    ensures CleanSpan(ArabicSpan(value)) == ArabicSpan(value) != []
  {
    hide IsArabic, IsSeparator, IsSpace, IsLatin;
    var span := ArabicSpan(value);
    FirstBeforeLast(value);
    ArabicIsDark(span[0]);
    ArabicIsDark(span[|span| - 1]);
    StripNothing(IsSpace, span);
    StripNothing(IsSeparator, span);
  }

  /** A split gives the exact span from the first to the last Arabic character as the Arabic name, and
      the rest, without separators at its ends, as the English one; the other side was blank. */
  lemma {:induction false} SplitShape(value: string) returns (left: string, right: string)
    requires TrySplit(value).Some?
    ensures FirstArabic(value) >= 0
    ensures var names := TrySplit(value).value;
      && names.nameEn.Some? && names.nameAr == Some(ArabicSpan(value))
      && value == Before(value) + ArabicSpan(value) + Behind(value)
      && All(IsSeparator, left) && All(IsSeparator, right)
      && ((Before(value) == left + names.nameEn.value + right && All(IsSpace, Behind(value)))
          || (Behind(value) == left + names.nameEn.value + right && All(IsSpace, Before(value))))
  {
    hide IsArabic, IsLatin, IsSeparator, IsSpace;
    ThreeParts(value);
    SpanIsClean(value);
    var prefix, suffix := Before(value), Behind(value);
    hide CleanSpan, All, Has, Trim, FirstArabic, LastArabic;
    if Trim(prefix) != [] {
      left, right := CleanSplits(prefix);
      BlankIsSpace(suffix);
    } else {
      left, right := CleanSplits(suffix);
      BlankIsSpace(prefix);
    }
  }

  lemma BlankIsSpace(s: string)
    requires Trim(s) == []
    ensures All(IsSpace, s)
  {
    var l, r := StripSplits(IsSpace, s);
    assert s == l + r;
  }

  lemma NoneIn(p: char -> bool, q: char -> bool, s: string)
    requires All(q, s) && forall c :: q(c) ==> !p(c)
    ensures !Has(p, s) && Keep(p, s) == []
  {
    KeepNone(p, s);
  }

  lemma NoLatinInSeparators(s: string)
    requires All(IsSeparator, s)
    ensures !Has(IsLatin, s) && Keep(IsLatin, s) == []
  {
    NoneIn(IsLatin, IsSeparator, s);
  }

  lemma HasPlus(p: char -> bool, s: string, t: string)
    ensures Has(p, s + t) <==> Has(p, s) || Has(p, t)
  {
    if i :| 0 <= i < |s| && p(s[i]) { assert p((s + t)[i]); }
    if i :| 0 <= i < |t| && p(t[i]) { assert p((s + t)[|s| + i]); }
  }

  lemma KeepThree(p: char -> bool, a: string, b: string, c: string)
    ensures Keep(p, a + b + c) == Keep(p, a) + Keep(p, b) + Keep(p, c)
    ensures Has(p, a + b + c) <==> Has(p, a) || Has(p, b) || Has(p, c)
  {
    KeepPlus(p, a + b, c);
    KeepPlus(p, a, b);
    HasPlus(p, a + b, c);
    HasPlus(p, a, b);
  }

  /** Dropping separators from the ends of one side drops no letter. */
  lemma SideKeeps(side: string, left: string, en: string, right: string)
    requires side == left + en + right && All(IsSeparator, left) && All(IsSeparator, right) && !Has(IsArabic, side)
    ensures Keep(IsLatin, side) == Keep(IsLatin, en) && (Has(IsLatin, side) <==> Has(IsLatin, en)) && !Has(IsArabic, en)
  {
    KeepThree(IsLatin, left, en, right);
    KeepThree(IsArabic, left, en, right);
    NoLatinInSeparators(left);
    NoLatinInSeparators(right);
  }

  /** The Arabic characters of a value are those of its span, the Latin ones those around it as long as
      the span holds none. */
  lemma SpanKeeps(value: string)
    requires FirstArabic(value) >= 0
    ensures !Has(IsArabic, Before(value)) && !Has(IsArabic, Behind(value))
    ensures Keep(IsArabic, value) == Keep(IsArabic, ArabicSpan(value))
    ensures !Has(IsLatin, ArabicSpan(value)) ==> Keep(IsLatin, value) == Keep(IsLatin, Before(value)) + Keep(IsLatin, Behind(value))
    ensures Has(IsLatin, value) <==> Has(IsLatin, Before(value)) || Has(IsLatin, ArabicSpan(value)) || Has(IsLatin, Behind(value))
  {
    ThreeParts(value);
    var prefix, span, suffix := Before(value), ArabicSpan(value), Behind(value);
    KeepMiddle(IsArabic, prefix, span, suffix);
    KeepOuter(IsLatin, prefix, span, suffix);
  }

  lemma KeepMiddle(p: char -> bool, a: string, b: string, c: string)
    requires !Has(p, a) && !Has(p, c)
    ensures Keep(p, a + b + c) == Keep(p, b)
  {
    KeepNone(p, a);
    KeepNone(p, c);
    KeepThree(p, a, b, c);
    var k := Keep(p, b);
    assert [] + k + [] == k;
  }

  lemma KeepOuter(p: char -> bool, a: string, b: string, c: string)
    ensures Has(p, a + b + c) <==> Has(p, a) || Has(p, b) || Has(p, c)
    ensures !Has(p, b) ==> Keep(p, a + b + c) == Keep(p, a) + Keep(p, c)
  {
    KeepThree(p, a, b, c);
    if !Has(p, b) {
      KeepNone(p, b);
      assert Keep(p, a) + [] == Keep(p, a);
    }
  }

  lemma ThreeParts(value: string)
    requires FirstArabic(value) >= 0
    ensures value == Before(value) + ArabicSpan(value) + Behind(value)
    ensures !Has(IsArabic, Before(value)) && !Has(IsArabic, Behind(value))
  {
    hide IsArabic, FirstArabic, LastArabic;
    FirstBeforeLast(value);
    InThree(value, FirstArabic(value), LastArabic(value) + 1);
  }

  lemma InThree(s: string, i: nat, j: nat)
    requires i <= j <= |s|
    ensures s == s[..i] + s[i..j] + s[j..]
  {
  }

  lemma NoLatinInSpaces(s: string)
    requires All(IsSpace, s)
    ensures !Has(IsLatin, s) && Keep(IsLatin, s) == []
  {
    NoneIn(IsLatin, IsSpace, s);
  }

  /** Nothing is lost or moved across: the English name keeps every Latin letter of the value in order,
      the Arabic one every Arabic character, and neither field contains the other script. */
  lemma SplitLosesNoLetters(value: string)
    requires TrySplit(value).Some?
    ensures var names := TrySplit(value).value;
      && names.nameEn.Some? && names.nameAr.Some?
      && Keep(IsLatin, names.nameEn.value) == Keep(IsLatin, value)
      && Keep(IsArabic, names.nameAr.value) == Keep(IsArabic, value)
      && !Has(IsArabic, names.nameEn.value) && !Has(IsLatin, names.nameAr.value)
  {
    var left, right := SplitShape(value);
    SpanKeeps(value);
    SpanIsClean(value);
    var en := TrySplit(value).value.nameEn.value;
    assert !Has(IsLatin, ArabicSpan(value));
    hide IsArabic, IsLatin, IsSpace, IsSeparator, TrySplit, Before, Behind, ArabicSpan, Has, All, Keep;
    if Before(value) == left + en + right && All(IsSpace, Behind(value)) {
      SideKeeps(Before(value), left, en, right);
      NoLatinInSpaces(Behind(value));
    } else {
      SideKeeps(Behind(value), left, en, right);
      NoLatinInSpaces(Before(value));
    }
  }

  /** When a value is split: it holds both scripts, the Arabic span holds no Latin letter, and one side
      of the span is blank. */
  predicate Splittable(value: string) {
    && Has(IsArabic, value) && Has(IsLatin, value)
    && FirstArabic(value) >= 0
    && !Has(IsLatin, ArabicSpan(value))
    && (All(IsSpace, Before(value)) || All(IsSpace, Behind(value)))
  }

  lemma {:induction false} SpaceIsBlank(s: string)
    requires All(IsSpace, s)
    ensures Trim(s) == []
    decreases |s|
  {
    if s != [] {
      assert DropWhile(IsSpace, s) == DropWhile(IsSpace, s[1..]);
      SpaceIsBlank(s[1..]);
    }
  }

  lemma SplitExactlyWhen(value: string)
    ensures TrySplit(value).Some? <==> Splittable(value)
  {
    if TrySplit(value).Some? {
      var left, right := SplitShape(value);
      SplitLosesNoLetters(value);
      var names := TrySplit(value).value;
      assert IsArabic(value[FirstArabic(value)]);
      SpanKeeps(value);
      SideHasLatin(value, left, names.nameEn.value, right);
    } else if Splittable(value) {
      SplittableSplits(value);
    }
  }

  lemma SideHasLatin(value: string, left: string, en: string, right: string)
    requires FirstArabic(value) >= 0 && Has(IsLatin, en)
    requires Before(value) == left + en + right || Behind(value) == left + en + right
    ensures Has(IsLatin, value)
  {
    SpanKeeps(value);
    KeepThree(IsLatin, left, en, right);
  }

  lemma SplittableSplits(value: string)
    requires Splittable(value)
    ensures TrySplit(value).Some?
  {
    FirstBeforeLast(value);
    SpanKeeps(value);
    SpanIsClean(value);
    var prefix, suffix := Before(value), Behind(value);
    if All(IsSpace, prefix) { SpaceIsBlank(prefix); NoLatinInSpaces(prefix); }
    if All(IsSpace, suffix) { SpaceIsBlank(suffix); NoLatinInSpaces(suffix); }
    var side := if Trim(prefix) != [] then prefix else suffix;
    assert Has(IsLatin, side) by {
      if Trim(prefix) == [] { BlankIsSpace(prefix); NoLatinInSpaces(prefix); }
    }
    var left, right := CleanSplits(side);
    SideKeeps(side, left, CleanSpan(side), right);
  }

  /** What is done with any cell: blank gives nothing, a splittable value both names, and every other
      value goes whole, trimmed and unchanged, into exactly one field. */
  lemma {:induction false} WholeOrSplit(raw: Option<string>)
    ensures var names := SplitBilingualName(raw);
      if raw.None? || Trim(raw.value) == [] then names == Names(None, None)
      else
        var value := Trim(raw.value);
        if Splittable(value) then TrySplit(value) == Some(names)
        else names == if Has(IsArabic, value) then Names(None, Some(value)) else Names(Some(value), None)
  {
    if raw.Some? {
      SplitExactlyWhen(Trim(raw.value));
    }
  }
}
