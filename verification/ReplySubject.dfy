/** Reply subjects: one "Re: " and the text it answers, whatever prefixes that text came with. */
module ReplySubject {
  import opened JsText
  import opened Options

  const MAX_REPLY_SUBJECT_LENGTH: nat := 500
  const COLON: CodeUnit := 58
  const RE: Text := [82, 101, 58]           // "Re:"
  const RE_SPACE: Text := [82, 101, 58, 32] // "Re: "

  /** White space and line terminators: what both `\s` and `trim` take. */
  predicate IsSpace(u: CodeUnit) {
    || 9 <= u <= 13 || u == 32 || u == 0xA0 || u == 0x1680 || 0x2000 <= u <= 0x200A
    || u == 0x2028 || u == 0x2029 || u == 0x202F || u == 0x205F || u == 0x3000 || u == 0xFEFF
  }

  predicate IsR(u: CodeUnit) { u == 82 || u == 114 }
  predicate IsE(u: CodeUnit) { u == 69 || u == 101 }

  function TrimLeft(s: Text): (t: Text)
    ensures |t| <= |s|
  {
    if s != [] && IsSpace(s[0]) then TrimLeft(s[1..]) else s
  }

  function TrimRight(s: Text): (t: Text)
    ensures |t| <= |s|
  {
    if s != [] && IsSpace(s[|s| - 1]) then TrimRight(s[..|s| - 1]) else s
  }

  function Trim(s: Text): Text {
    TrimRight(TrimLeft(s))
  }

  /** One round of `\s*re\s*:\s*`, case-insensitive: what is left after it. */
  function AfterPrefix(s: Text): (rest: Option<Text>)
    ensures rest.Some? ==> |rest.value| < |s|
  {
    var a := TrimLeft(s);
    if |a| < 2 || !IsR(a[0]) || !IsE(a[1]) then None
    else
      var b := TrimLeft(a[2..]);
      if b == [] || b[0] != COLON then None else Some(TrimLeft(b[1..]))
  }

  /** `replace(/^(\s*re\s*:\s*)+/i, '')` */
  function StripPrefixes(s: Text): (t: Text)
    decreases |s|
  {
    match AfterPrefix(s)
    case None => s
    case Some(rest) => StripPrefixes(rest)
  }

  function NormalizeReplySubject(base: Text): Text {
    var stripped := Trim(StripPrefixes(base));
    var candidate := if stripped != [] then RE_SPACE + stripped else RE;
    if |candidate| > MAX_REPLY_SUBJECT_LENGTH then candidate[..MAX_REPLY_SUBJECT_LENGTH] else candidate
  }

  // ----- trimming -----

  predicate AllSpace(s: Text) {
    forall i :: 0 <= i < |s| ==> IsSpace(s[i])
  }

  predicate StartsDark(s: Text) {
    s != [] && !IsSpace(s[0])
  }

  lemma SkipAll(spaces: Text, rest: Text)
    requires AllSpace(spaces)
    ensures TrimLeft(spaces + rest) == TrimLeft(rest)
  {
    hide IsSpace;
    if spaces == [] {
      assert spaces + rest == rest;
    } else {
      assert (spaces + rest)[1..] == spaces[1..] + rest;
      SkipAll(spaces[1..], rest);
    }
  }

  lemma {:induction false} LeftSplit(s: Text) returns (spaces: Text)
    ensures s == spaces + TrimLeft(s) && AllSpace(spaces)
    ensures TrimLeft(s) == [] || StartsDark(TrimLeft(s))
  {
    hide IsSpace;
    if s != [] && IsSpace(s[0]) {
      var more := LeftSplit(s[1..]);
      var rest := TrimLeft(s[1..]);
      assert TrimLeft(s) == rest;
      hide TrimLeft;
      spaces := [s[0]] + more;
      Grow(s, more, rest);
    } else {
      spaces := [];
    }
  }

  lemma Grow(s: Text, more: Text, rest: Text)
    requires s != [] && s[1..] == more + rest
    ensures s == [s[0]] + more + rest
  {
    assert s == [s[0]] + s[1..];
  }

  lemma {:induction false} RightSplit(s: Text) returns (spaces: Text)
    ensures s == TrimRight(s) + spaces && AllSpace(spaces)
    ensures TrimRight(s) != [] ==> !IsSpace(TrimRight(s)[|TrimRight(s)| - 1])
  {
    hide IsSpace;
    if s != [] && IsSpace(s[|s| - 1]) {
      var more := RightSplit(s[..|s| - 1]);
      spaces := more + [s[|s| - 1]];
      assert s == s[..|s| - 1] + [s[|s| - 1]];
    } else {
      spaces := [];
    }
  }

  lemma DarkStays(s: Text)
    requires StartsDark(s)
    ensures TrimLeft(s) == s
  {
  }

  lemma TrimLeftTwice(s: Text)
    ensures TrimLeft(TrimLeft(s)) == TrimLeft(s)
  {
    var _ := LeftSplit(s);
  }

  // ----- the expression as a language -----

  /** A word of `\s*re\s*:\s*`, by its parts. */
  datatype Word = Word(before: Text, r: CodeUnit, e: CodeUnit, between: Text, after: Text)

  predicate InExpression(w: Word) {
    AllSpace(w.before) && IsR(w.r) && IsE(w.e) && AllSpace(w.between) && AllSpace(w.after)
  }

  function Spell(w: Word): Text {
    w.before + [w.r, w.e] + w.between + [COLON] + w.after
  }

  function SpellAll(words: seq<Word>): Text {
    if words == [] then [] else Spell(words[0]) + SpellAll(words[1..])
  }

  predicate AllInExpression(words: seq<Word>) {
    forall i :: 0 <= i < |words| ==> InExpression(words[i])
  }

  lemma SpellParts(w: Word, rest: Text)
    ensures Spell(w) + rest == w.before + ([w.r, w.e] + (w.between + ([COLON] + (w.after + rest))))
  {
  }

  lemma AfterParts(r: CodeUnit, e: CodeUnit, between: Text, after: Text, rest: Text)
    requires IsR(r) && IsE(e) && AllSpace(between) && AllSpace(after)
    ensures AfterPrefix([r, e] + (between + ([COLON] + (after + rest)))) == Some(TrimLeft(rest))
  {
    var b := [COLON] + (after + rest);
    var a := [r, e] + (between + b);
    DarkStays(a);
    DarkStays(b);
    SkipAll(between, b);
    SkipAll(after, rest);
    assert a[2..] == between + b && b[1..] == after + rest;
  }

  /** Behind any word of the expression, one round leaves exactly the left-trimmed rest. */
  lemma WordIsStripped(w: Word, rest: Text)
    requires InExpression(w)
    ensures AfterPrefix(Spell(w) + rest) == Some(TrimLeft(rest))
  {
    var a := [w.r, w.e] + (w.between + ([COLON] + (w.after + rest)));
    AfterParts(w.r, w.e, w.between, w.after, rest);
    SpellParts(w, rest);
    SkipAll(w.before, a);
    AfterPrefixSkips(a);
    AfterPrefixSkips(w.before + a);
  }

  lemma AfterPrefixSkips(s: Text)
    ensures AfterPrefix(TrimLeft(s)) == AfterPrefix(s)
  {
    TrimLeftTwice(s);
  }

  /** One round removes one word. */
  lemma FirstWord(s: Text) returns (w: Word)
    requires AfterPrefix(s).Some?
    ensures InExpression(w) && s == Spell(w) + AfterPrefix(s).value
  {
    hide IsSpace, TrimLeft, IsR, IsE;
    var before := LeftSplit(s);
    var a := TrimLeft(s);
    var between := LeftSplit(a[2..]);
    var b := TrimLeft(a[2..]);
    var after := LeftSplit(b[1..]);
    w := Word(before, a[0], a[1], between, after);
    var rest := TrimLeft(b[1..]);
    assert AfterPrefix(s) == Some(rest);
    hide AfterPrefix;
    assert a == [a[0], a[1]] + a[2..];
    assert b == [COLON] + b[1..];
    SpellParts(w, rest);
  }

  lemma StripSkips(s: Text)
    ensures |StripPrefixes(TrimLeft(s))| <= |StripPrefixes(s)|
    ensures Trim(StripPrefixes(TrimLeft(s))) == Trim(StripPrefixes(s))
  {
    AfterPrefixSkips(s);
    TrimLeftTwice(s);
    hide TrimLeft, AfterPrefix, TrimRight;
    match AfterPrefix(s)
    case None =>
      assert StripPrefixes(TrimLeft(s)) == TrimLeft(s);
    case Some(_) =>
  }

  /** The replacement removes the longest run of words at the start: what it leaves is no longer than
      what any other run of words would leave. */
  lemma {:induction false} StripsLongest(words: seq<Word>, rest: Text)
    requires AllInExpression(words)
    ensures |StripPrefixes(SpellAll(words) + rest)| <= |rest|
    decreases |words|
  {
    if words == [] {
      assert SpellAll(words) + rest == rest;
      StripShrinks(rest);
    } else {
      var more := SpellAll(words[1..]) + rest;
      assert SpellAll(words) + rest == Spell(words[0]) + more;
      WordIsStripped(words[0], more);
      StripsLongest(words[1..], rest);
      StripSkips(more);
    }
  }

  lemma StripShrinks(s: Text)
    ensures |StripPrefixes(s)| <= |s|
    decreases |s|
  {
    if AfterPrefix(s).Some? {
      StripShrinks(AfterPrefix(s).value);
    }
  }

  /** What the replacement removes is itself a run of words, and what it leaves starts with none. */
  lemma {:induction false} StrippedIsLanguage(s: Text) returns (words: seq<Word>)
    ensures AllInExpression(words) && s == SpellAll(words) + StripPrefixes(s)
    ensures AfterPrefix(StripPrefixes(s)).None?
    decreases |s|
  {
    hide InExpression;
    match AfterPrefix(s)
    case None =>
      words := [];
    case Some(rest) =>
      var w := FirstWord(s);
      var more := StrippedIsLanguage(rest);
      words := [w] + more;
      assert words[1..] == more;
      assert s == Spell(w) + (SpellAll(more) + StripPrefixes(rest));
  }

  // ----- the promises -----

  function ReplyWord(): Word {
    Word([], 82, 101, [], [32])
  }

  /** A subject already replied to normalizes like the original one. */
  lemma ReplyOfReply(s: Text)
    ensures NormalizeReplySubject(RE_SPACE + s) == NormalizeReplySubject(s)
  {
    assert Spell(ReplyWord()) == RE_SPACE;
    WordIsStripped(ReplyWord(), s);
    StripSkips(s);
  }

  lemma PrefixOnShorter(s: Text, t: Text)
    requires t <= s && AfterPrefix(s).None?
    ensures AfterPrefix(t).None?
  {
    if AfterPrefix(t).Some? {
      var w := FirstWord(t);
      var rest := AfterPrefix(t).value + s[|t|..];
      assert s == Spell(w) + rest;
      WordIsStripped(w, rest);
    }
  }

  lemma RightIsPrefix(s: Text)
    ensures TrimRight(s) <= s
    ensures StartsDark(s) ==> StartsDark(TrimRight(s))
  {
    var spaces := RightSplit(s);
    assert TrimRight(s) == [] ==> s == spaces;
  }

  /** The text kept behind "Re: ": trimmed, without a reply prefix of its own. */
  lemma KeptText(s: Text)
    ensures var x := Trim(StripPrefixes(s));
      AfterPrefix(x).None? && (x != [] ==> StartsDark(x) && !IsSpace(x[|x| - 1]))
  {
    var t := StripPrefixes(s);
    var _ := StrippedIsLanguage(s);
    var _ := LeftSplit(t);
    var _ := RightSplit(TrimLeft(t));
    AfterPrefixSkips(t);
    RightIsPrefix(TrimLeft(t));
    PrefixOnShorter(TrimLeft(t), Trim(t));
  }

  function Cut(x: Text): Text {
    if |x| + 4 > MAX_REPLY_SUBJECT_LENGTH then x[..MAX_REPLY_SUBJECT_LENGTH - 4] else x
  }

  /** Every normalized subject is "Re:" alone, or "Re: " before a text that starts with no space and no
      reply prefix. */
  lemma Shape(s: Text)
    ensures var y := Cut(Trim(StripPrefixes(s)));
      && NormalizeReplySubject(s) == (if y == [] then RE else RE_SPACE + y)
      && (y != [] ==> StartsDark(y)) && AfterPrefix(y).None? && |y| + 4 <= MAX_REPLY_SUBJECT_LENGTH
  {
    KeptText(s);
    hide StripPrefixes, Trim, AfterPrefix, IsSpace;
    var x := Trim(StripPrefixes(s));
    var y := Cut(x);
    PrefixOnShorter(x, y);
    if |x| + 4 > MAX_REPLY_SUBJECT_LENGTH {
      assert (RE_SPACE + x)[..MAX_REPLY_SUBJECT_LENGTH] == RE_SPACE + y;
    }
  }

  lemma TrimSplit(t: Text) returns (left: Text, right: Text)
    ensures t == left + Trim(t) + right && AllSpace(left) && AllSpace(right)
  {
    hide TrimLeft, TrimRight, AllSpace;
    left := LeftSplit(t);
    right := RightSplit(TrimLeft(t));
  }

  /** What normalization makes of a subject: behind a run of reply prefixes and white space lies the text to
      keep, which ends in neither; "Re: " goes before it, the whole is cut to 500, and nothing to keep is "Re:". */
  lemma {:induction false} NormalizedKeepsTheText(s: Text) returns (words: seq<Word>, left: Text, kept: Text, right: Text)
    ensures AllInExpression(words) && AllSpace(left) && AllSpace(right) && s == SpellAll(words) + (left + kept + right)
    ensures AfterPrefix(kept).None? && (kept != [] ==> !IsSpace(kept[0]) && !IsSpace(kept[|kept| - 1]))
    ensures NormalizeReplySubject(s) ==
      if kept == [] then [82, 101, 58]
      else if |kept| <= 496 then [82, 101, 58, 32] + kept
      else [82, 101, 58, 32] + kept[..496]
  {
    hide AllInExpression, AllSpace, IsSpace, AfterPrefix, StripPrefixes, Trim, NormalizeReplySubject, SpellAll;
    words := StrippedIsLanguage(s);
    var t := StripPrefixes(s);
    left, right := TrimSplit(t);
    kept := Trim(t);
    KeptText(s);
    Shape(s);
  }

  /** At most 500 code units, and no reply prefix after the first. */
  lemma BoundedAndSinglePrefix(s: Text)
    ensures var n := NormalizeReplySubject(s);
      && 3 <= |n| <= 500 && n[..3] == [82, 101, 58]
      && AfterPrefix(n[3..]).None?
  {
    Shape(s);
    var n, y := NormalizeReplySubject(s), Cut(Trim(StripPrefixes(s)));
    if y != [] {
      assert n[3..] == [32] + y;
      SkipAll([32], y);
      AfterPrefixSkips([32] + y);
      AfterPrefixSkips(y);
    }
  }

  /** Normalizing once more only drops white space that the truncation left at the end. */
  lemma Again(y: Text)
    requires StartsDark(y) && AfterPrefix(y).None? && |y| + 4 <= MAX_REPLY_SUBJECT_LENGTH
    ensures StartsDark(TrimRight(y)) && NormalizeReplySubject(RE_SPACE + y) == RE_SPACE + TrimRight(y)
  {
    ReplyOfReply(y);
    RightIsPrefix(y);
    assert TrimLeft(y) == y;
    hide AfterPrefix, TrimRight, IsSpace;
    assert StripPrefixes(y) == y;
  }

  lemma ReplyOfNothing()
    ensures NormalizeReplySubject(RE) == RE
  {
    var w := Word([], 82, 101, [], []);
    assert Spell(w) + [] == RE;
    WordIsStripped(w, []);
    assert AfterPrefix([]).None?;
    assert StripPrefixes([]) == [];
    assert StripPrefixes(RE) == [];
  }

  /** Normalizing twice differs from normalizing once exactly when the stripped and trimmed subject is longer
      than the 496 code units that fit behind "Re: ", and the last of those that fit is white space. */
  lemma FixedUnlessCutAfterSpace(s: Text)
    ensures var n, t := NormalizeReplySubject(s), Trim(StripPrefixes(s));
      && (NormalizeReplySubject(n) != n <==>
            |t| > MAX_REPLY_SUBJECT_LENGTH - 4 && IsSpace(t[MAX_REPLY_SUBJECT_LENGTH - 5]))
      && n != [] && (NormalizeReplySubject(n) == n <==> !IsSpace(n[|n| - 1]))
  {
    var n, t, y := NormalizeReplySubject(s), Trim(StripPrefixes(s)), Cut(Trim(StripPrefixes(s)));
    Shape(s);
    KeptText(s);
    if y == [] {
      ReplyOfNothing();
    } else {
      Again(y);
      var spaces := RightSplit(y);
      assert n[|n| - 1] == y[|y| - 1];
      assert |t| > MAX_REPLY_SUBJECT_LENGTH - 4 ==> y[|y| - 1] == t[MAX_REPLY_SUBJECT_LENGTH - 5];
      if spaces == [] {
        assert TrimRight(y) == y;
      } else {
        assert y[|y| - 1] == spaces[|spaces| - 1];
        assert |RE_SPACE + TrimRight(y)| < |n|;
      }
    }
  }

  /** A second normalization is final for every subject. */
  lemma ThirdTimeIsSecond(s: Text)
    ensures var n := NormalizeReplySubject(s);
      NormalizeReplySubject(NormalizeReplySubject(n)) == NormalizeReplySubject(n)
  {
    var y := Cut(Trim(StripPrefixes(s)));
    Shape(s);
    if y == [] {
      ReplyOfNothing();
    } else {
      Again(y);
      var z := TrimRight(y);
      RightIsPrefix(y);
      PrefixOnShorter(y, z);
      Again(z);
      var _ := RightSplit(y);
      assert TrimRight(z) == z;
    }
  }

  /** Such a truncation does occur: 495 letters, a space and one more letter. */
  lemma CutAfterSpaceOccurs()
    ensures var s := seq(495, _ => 97) + [32, 97];
      NormalizeReplySubject(NormalizeReplySubject(s)) != NormalizeReplySubject(s)
  {
    var s: Text := seq(495, _ => 97) + [32, 97];
    assert s[495] == 32;
    DarkStays(s);
    assert StripPrefixes(s) == s && TrimRight(s) == s;
    var n := NormalizeReplySubject(s);
    assert n == (RE_SPACE + s)[..500];
    assert n[499] == s[495];
    FixedUnlessCutAfterSpace(s);
  }
}
