/** The identity of an ingested mail message: the canonical folder name, and the length-prefixed encoding
    of four components whose UTF-8 bytes are hashed into the deduplication key. */
module ImapIdentity {
  import opened Decimals
  import opened JsText
  import opened Options
  import opened Utf8

  // ----- the folder -----

  const INBOX: Text := [73, 78, 66, 79, 88]
  const DOTLESS_I: CodeUnit := 0x131

  /** The code units whose upper case is a letter of INBOX: the letter, its small form and, for I alone,
      the dotless i. */
  predicate UppercasesTo(u: CodeUnit, letter: CodeUnit) {
    u == letter || u == letter + 32 || (letter == 73 && u == DOTLESS_I)
  }

  /** `rawFolderName.toUpperCase() === 'INBOX'` */
  predicate UppercasesToInbox(name: Text) {
    |name| == 5 && forall i :: 0 <= i < 5 ==> UppercasesTo(name[i], INBOX[i])
  }

  function CanonicalizeImapFolder(name: Text): Text {
    if UppercasesToInbox(name) then INBOX else name
  }

  /** The rule of section 5.1 of RFC 3501: INBOX in any ASCII case. */
  predicate IsInboxIgnoringAsciiCase(name: Text) {
    |name| == 5 && forall i :: 0 <= i < 5 ==> name[i] == INBOX[i] || name[i] == INBOX[i] + 32
  }

  lemma CanonicalTwice(name: Text)
    ensures CanonicalizeImapFolder(CanonicalizeImapFolder(name)) == CanonicalizeImapFolder(name)
  {
  }

  /** Two folders are one exactly when their names are equal or both are INBOX; no other name changes. */
  lemma SameFolder(a: Text, b: Text)
    ensures CanonicalizeImapFolder(a) == CanonicalizeImapFolder(b)
       <==> a == b || (UppercasesToInbox(a) && UppercasesToInbox(b))
  {
    assert UppercasesToInbox(INBOX);
  }

  /** The code takes a name for INBOX exactly when RFC 3501 does, or when it spells the I without a dot. */
  lemma InboxBeyondAscii(name: Text)
    ensures UppercasesToInbox(name) <==>
      || IsInboxIgnoringAsciiCase(name)
      || (|name| == 5 && name[0] == DOTLESS_I && IsInboxIgnoringAsciiCase(name[0 := 73]))
  {
    assert |name| == 5 ==> forall i :: 1 <= i < 5 ==> name[0 := 73][i] == name[i];
  }

  /** It does take one: a folder named with a dotless i becomes INBOX. */
  lemma DotlessInbox()
    ensures var name := [DOTLESS_I, 110, 98, 111, 120];
      CanonicalizeImapFolder(name) == INBOX && !IsInboxIgnoringAsciiCase(name)
  {
    var name: Text := [DOTLESS_I, 110, 98, 111, 120];
    assert name[0] == DOTLESS_I;
  }

  // ----- the encoding -----

  datatype ImapIdentityTuple = ImapIdentityTuple(
    mailConfigurationId: Text, canonicalFolder: Text, uidValidity: int, uid: int)

  const COLON: CodeUnit := 58
  const MINUS: CodeUnit := 45

  function Ascii(s: string): (t: Text)
    requires forall i :: 0 <= i < |s| ==> s[i] < 128 as char
    ensures |t| == |s| && IsAscii(t) && forall i :: 0 <= i < |t| ==> t[i] == s[i] as int
  {
    if s == "" then [] else [s[0] as int] + Ascii(s[1..])
  }

  lemma {:induction false} DecimalIsDigits(n: nat)
    ensures Decimal(n) != "" && forall i :: 0 <= i < |Decimal(n)| ==> IsDigit(Decimal(n)[i])
  {
    if n >= 10 {
      DecimalIsDigits(n / 10);
    }
  }

  /** The decimal digits of `n`. */
  function Digits(n: nat): Text {
    DecimalIsDigits(n);
    Ascii(Decimal(n))
  }

  /** `bigint.toString()` */
  function BigIntText(n: int): Text {
    if n < 0 then [MINUS] + Digits(-n) else Digits(n)
  }

  function EncodeComponent(value: Text): Text {
    Digits(|Encode(value)|) + [COLON] + value
  }

  function CanonicalImapIdentityEncoding(t: ImapIdentityTuple): Text {
    EncodeComponent(t.mailConfigurationId) + EncodeComponent(t.canonicalFolder)
    + EncodeComponent(BigIntText(t.uidValidity)) + EncodeComponent(BigIntText(t.uid))
  }

  /** What `createHash('sha256').update(encoding, 'utf8')` digests. */
  function HashedBytes(t: ImapIdentityTuple): seq<Byte> {
    Encode(CanonicalImapIdentityEncoding(t))
  }

  // ----- the decoder -----

  type Bytes = seq<Byte>
  datatype Four = Four(a: Bytes, b: Bytes, c: Bytes, d: Bytes)

  lemma DigitsAreAscii(n: nat)
    ensures IsAscii(Digits(n)) && Digits(n) != [] && forall i :: 0 <= i < |Digits(n)| ==> 48 <= Digits(n)[i] < 58
  {
    DecimalIsDigits(n);
  }

  /** A component over bytes. */
  function Netstring(bytes: Bytes): Bytes {
    DigitsAreAscii(|bytes|);
    Digits(|bytes|) + [COLON] + bytes
  }

  function NetstringFour(f: Four): Bytes {
    Netstring(f.a) + (Netstring(f.b) + (Netstring(f.c) + Netstring(f.d)))
  }

  /** Reads digits up to the colon, on top of the number read so far. */
  function ReadLength(bytes: seq<int>, sofar: nat): Option<(nat, seq<int>)> {
    if bytes == [] then None
    else if bytes[0] == 58 then Some((sofar, bytes[1..]))
    else if 48 <= bytes[0] < 58 then ReadLength(bytes[1..], 10 * sofar + (bytes[0] - 48))
    else None
  }

  /** One component and what follows it. */
  function DecodeComponent(bytes: seq<int>): Option<(seq<int>, seq<int>)> {
    match ReadLength(bytes, 0)
    case None => None
    case Some((n, rest)) => if n <= |rest| then Some((rest[..n], rest[n..])) else None
  }

  function DecodeMany(bytes: seq<int>, count: nat): Option<(seq<seq<int>>, seq<int>)>
    decreases count
  {
    if count == 0 then Some(([], bytes))
    else match DecodeComponent(bytes)
      case None => None
      case Some((first, rest)) =>
        match DecodeMany(rest, count - 1)
        case None => None
        case Some((others, end)) => Some(([first] + others, end))
  }

  lemma {:induction false} DigitsRead(n: nat, tail: seq<int>)
    ensures ReadLength(Digits(n) + tail, 0) == ReadLength(tail, n)
    decreases n
  {
    var d := n % 10;
    if n < 10 {
      assert Digits(n) == [48 + n];
      assert (Digits(n) + tail)[1..] == tail;
    } else {
      DigitsStep(n);
      var more := [48 + d] + tail;
      assert Digits(n) + tail == Digits(n / 10) + more;
      DigitsRead(n / 10, more);
      assert more[1..] == tail;
    }
  }

  lemma DigitsStep(n: nat)
    requires n >= 10
    ensures Digits(n) == Digits(n / 10) + [48 + n % 10]
  {
    DecimalIsDigits(n);
    DecimalIsDigits(n / 10);
  }

  /** Decoding one encoded component, whatever follows it, gives the component and what follows. */
  lemma ComponentRoundTrip(bytes: Bytes, rest: seq<int>)
    ensures DecodeComponent(Netstring(bytes) + rest) == Some((bytes, rest))
  {
    var tail := [COLON] + (bytes + rest);
    DigitsRead(|bytes|, tail);
    assert Netstring(bytes) + rest == Digits(|bytes|) + tail;
    assert tail[1..] == bytes + rest;
  }

  lemma DecodeNext(bytes: seq<int>, rest: seq<int>, first: seq<int>, count: nat, others: seq<seq<int>>,
                   all: seq<seq<int>>, end: seq<int>)
    requires all == [first] + others
    requires DecodeComponent(bytes) == Some((first, rest)) && DecodeMany(rest, count) == Some((others, end))
    ensures DecodeMany(bytes, count + 1) == Some((all, end))
  {
  }

  /** decode(encode(t) + rest) == (t, rest) for any four byte strings. */
  lemma RoundTrip(f: Four, rest: seq<int>)
    ensures DecodeMany(NetstringFour(f) + rest, 4) == Some(([f.a, f.b, f.c, f.d], rest))
  {
    hide DecodeComponent, Netstring;
    var d := Netstring(f.d) + rest;
    var c := Netstring(f.c) + d;
    var b := Netstring(f.b) + c;
    assert NetstringFour(f) + rest == Netstring(f.a) + b;
    ComponentRoundTrip(f.a, b);
    ComponentRoundTrip(f.b, c);
    ComponentRoundTrip(f.c, d);
    ComponentRoundTrip(f.d, rest);
    DecodeNext(d, rest, f.d, 0, [], [f.d], rest);
    DecodeNext(c, d, f.c, 1, [f.d], [f.c, f.d], rest);
    DecodeNext(b, c, f.b, 2, [f.c, f.d], [f.b, f.c, f.d], rest);
    DecodeNext(NetstringFour(f) + rest, b, f.a, 3, [f.b, f.c, f.d], [f.a, f.b, f.c, f.d], rest);
  }

  /** No encoding of four components continues another: the components and the rest are determined. */
  lemma PrefixFree(f: Four, g: Four, r: seq<int>, q: seq<int>)
    requires NetstringFour(f) + r == NetstringFour(g) + q
    ensures f == g && r == q
  {
    hide NetstringFour, DecodeMany;
    RoundTrip(f, r);
    RoundTrip(g, q);
    var fs, gs := [f.a, f.b, f.c, f.d], [g.a, g.b, g.c, g.d];
    assert fs[0] == gs[0] && fs[1] == gs[1] && fs[2] == gs[2] && fs[3] == gs[3];
  }

  // ----- from text to bytes -----

  predicate StartsWithDigit(t: Text) {
    t == [] || 48 <= t[0] < 58
  }

  lemma ComponentBytes(value: Text, rest: Text)
    requires StartsWithDigit(rest)
    ensures Encode(EncodeComponent(value) + rest) == Netstring(Encode(value)) + Encode(rest)
  {
    hide Encode;
    var head := Digits(|Encode(value)|) + [COLON];
    DigitsAreAscii(|Encode(value)|);
    AsciiIsItself(head);
    assert EncodeComponent(value) + rest == head + (value + rest);
    EncodeConcat(head, value + rest);
    EncodeConcat(value, rest);
  }

  lemma ComponentStartsWithDigit(value: Text, rest: Text)
    ensures StartsWithDigit(EncodeComponent(value) + rest)
  {
    DigitsAreAscii(|Encode(value)|);
    assert (EncodeComponent(value) + rest)[0] == Digits(|Encode(value)|)[0];
  }

  function Components(t: ImapIdentityTuple): Four {
    Four(Encode(t.mailConfigurationId), Encode(t.canonicalFolder), Encode(BigIntText(t.uidValidity)), Encode(BigIntText(t.uid)))
  }

  lemma FourComponentBytes(a: Text, b: Text, c: Text, d: Text)
    ensures Encode(EncodeComponent(a) + (EncodeComponent(b) + (EncodeComponent(c) + EncodeComponent(d))))
         == NetstringFour(Four(Encode(a), Encode(b), Encode(c), Encode(d)))
  {
    hide Encode, Netstring, EncodeComponent, StartsWithDigit;
    var z := EncodeComponent(d) + [];
    var y := EncodeComponent(c) + z;
    ComponentStartsWithDigit(d, []);
    ComponentStartsWithDigit(c, z);
    ComponentStartsWithDigit(b, y);
    ComponentBytes(d, []) by { EmptyStarts(); }
    ComponentBytes(c, z);
    ComponentBytes(b, y);
    ComponentBytes(a, EncodeComponent(b) + y);
    AsciiIsItself([]);
    assert z == EncodeComponent(d);
    assert Netstring(Encode(d)) + [] == Netstring(Encode(d));
  }

  lemma EmptyStarts()
    ensures StartsWithDigit([])
  {
  }

  /** The byte length in each prefix is the length of that component's bytes in the digested input. */
  lemma HashedBytesAreNetstrings(t: ImapIdentityTuple)
    ensures HashedBytes(t) == NetstringFour(Components(t))
  {
    hide Encode, NetstringFour, EncodeComponent, BigIntText;
    FourComponentBytes(t.mailConfigurationId, t.canonicalFolder, BigIntText(t.uidValidity), BigIntText(t.uid));
    Regroup(EncodeComponent(t.mailConfigurationId), EncodeComponent(t.canonicalFolder),
            EncodeComponent(BigIntText(t.uidValidity)), EncodeComponent(BigIntText(t.uid)));
  }

  lemma Regroup(a: Text, b: Text, c: Text, d: Text)
    ensures a + b + c + d == a + (b + (c + d))
  {
  }

  lemma BigIntTextInjective(m: int, n: int)
    requires BigIntText(m) == BigIntText(n)
    ensures m == n
  {
    var a, b := if m < 0 then -m else m, if n < 0 then -n else n;
    DigitsAreAscii(a);
    DigitsAreAscii(b);
    assert m < 0 <==> BigIntText(m)[0] == MINUS;
    assert n < 0 <==> BigIntText(n)[0] == MINUS;
    assert m < 0 ==> BigIntText(m)[1..] == Digits(a) && BigIntText(n)[1..] == Digits(b);
    DigitsRead(a, [COLON]);
    DigitsRead(b, [COLON]);
  }

  lemma BigIntTextIsAscii(n: int)
    ensures IsAscii(BigIntText(n))
  {
    DigitsAreAscii(if n < 0 then -n else n);
  }

  /** The same message: equal numbers, and an id and a folder that read as the same Unicode text. */
  predicate SameIdentity(t: ImapIdentityTuple, u: ImapIdentityTuple) {
    && Scalars(t.mailConfigurationId) == Scalars(u.mailConfigurationId)
    && Scalars(t.canonicalFolder) == Scalars(u.canonicalFolder)
    && t.uidValidity == u.uidValidity && t.uid == u.uid
  }

  lemma SameComponents(t: ImapIdentityTuple, u: ImapIdentityTuple)
    ensures Components(t) == Components(u) <==> SameIdentity(t, u)
  {
    hide Encode, BigIntText;
    SameBytes(t.mailConfigurationId, u.mailConfigurationId);
    SameBytes(t.canonicalFolder, u.canonicalFolder);
    BigIntTextIsAscii(t.uidValidity);
    BigIntTextIsAscii(u.uidValidity);
    BigIntTextIsAscii(t.uid);
    BigIntTextIsAscii(u.uid);
    AsciiIsItself(BigIntText(t.uidValidity));
    AsciiIsItself(BigIntText(u.uidValidity));
    AsciiIsItself(BigIntText(t.uid));
    AsciiIsItself(BigIntText(u.uid));
    if Components(t) == Components(u) {
      BigIntTextInjective(t.uidValidity, u.uidValidity);
      BigIntTextInjective(t.uid, u.uid);
    }
  }

  /** The digested bytes of two tuples are equal exactly when they identify the same message, and neither
      continues the other. */
  lemma {:induction false} SameBytesSameIdentity(t: ImapIdentityTuple, u: ImapIdentityTuple, r: seq<int>, q: seq<int>)
    ensures HashedBytes(t) == HashedBytes(u) <==> SameIdentity(t, u)
    ensures HashedBytes(t) + r == HashedBytes(u) + q ==> SameIdentity(t, u) && r == q
  {
    hide HashedBytes, Components, NetstringFour, SameIdentity;
    HashedBytesAreNetstrings(t);
    HashedBytesAreNetstrings(u);
    SameComponents(t, u);
    if HashedBytes(t) == HashedBytes(u) {
      assert NetstringFour(Components(t)) + [] == NetstringFour(Components(u)) + [];
      PrefixFree(Components(t), Components(u), [], []);
    }
    if HashedBytes(t) + r == HashedBytes(u) + q {
      PrefixFree(Components(t), Components(u), r, q);
    }
  }

  /** On text without lone surrogates the digested bytes determine the tuple. */
  lemma WellFormedTuplesNeverCollide(t: ImapIdentityTuple, u: ImapIdentityTuple)
    requires WellFormed(t.mailConfigurationId) && WellFormed(u.mailConfigurationId)
    requires WellFormed(t.canonicalFolder) && WellFormed(u.canonicalFolder)
    ensures HashedBytes(t) == HashedBytes(u) <==> t == u
  {
    hide HashedBytes, Scalars, WellFormed;
    SameBytesSameIdentity(t, u, [], []);
    if HashedBytes(t) == HashedBytes(u) {
      WellFormedInjective(t.mailConfigurationId, u.mailConfigurationId);
      WellFormedInjective(t.canonicalFolder, u.canonicalFolder);
    }
  }

  /** A lone surrogate in a folder name collides with the replacement character. */
  lemma LoneSurrogateCollides(uidValidity: int, uid: int)
    ensures var t, u := ImapIdentityTuple([], [0xD800], uidValidity, uid), ImapIdentityTuple([], [0xFFFD], uidValidity, uid);
      t != u && HashedBytes(t) == HashedBytes(u)
  {
    hide HashedBytes;
    var t, u := ImapIdentityTuple([], [0xD800], uidValidity, uid), ImapIdentityTuple([], [0xFFFD], uidValidity, uid);
    assert t.canonicalFolder[0] != u.canonicalFolder[0];
    SameBytesSameIdentity(t, u, [], []);
  }

  /** With well-formed names, two ingested messages share a key's input exactly when mailbox, uid validity
      and uid agree and the folders are one. */
  lemma SameMessageSameBytes(id: Text, folder: Text, id2: Text, folder2: Text, v: int, uid: int, v2: int, uid2: int)
    requires WellFormed(id) && WellFormed(id2) && WellFormed(folder) && WellFormed(folder2)
    ensures HashedBytes(ImapIdentityTuple(id, CanonicalizeImapFolder(folder), v, uid))
         == HashedBytes(ImapIdentityTuple(id2, CanonicalizeImapFolder(folder2), v2, uid2))
      <==> id == id2 && v == v2 && uid == uid2
           && (folder == folder2 || (UppercasesToInbox(folder) && UppercasesToInbox(folder2)))
  {
    hide HashedBytes, UppercasesToInbox;
    SameFolder(folder, folder2);
    InboxIsWellFormed();
    WellFormedTuplesNeverCollide(ImapIdentityTuple(id, CanonicalizeImapFolder(folder), v, uid),
                                 ImapIdentityTuple(id2, CanonicalizeImapFolder(folder2), v2, uid2));
  }

  lemma InboxIsWellFormed()
    ensures WellFormed(INBOX)
  {
    assert AfterFirst(INBOX) == [78, 66, 79, 88];
    assert AfterFirst([78, 66, 79, 88]) == [66, 79, 88];
    assert AfterFirst([66, 79, 88]) == [79, 88];
    assert AfterFirst([79, 88]) == [88];
    assert AfterFirst([88]) == [];
  }

  // ----- as text -----

  lemma ComponentTextReads(a: Text, r: Text)
    ensures ReadLength(EncodeComponent(a) + r, 0) == Some((|Encode(a)|, a + r))
  {
    hide Encode;
    var m, x := |Encode(a)|, [COLON] + (a + r);
    assert EncodeComponent(a) + r == Digits(m) + x;
    DigitsRead(m, x);
    assert x[1..] == a + r;
  }

  /** Even as JavaScript text, lone surrogates included, the first component of an encoding and what
      follows it are determined. */
  lemma ComponentTextInjective(a: Text, b: Text, r: Text, q: Text)
    requires EncodeComponent(a) + r == EncodeComponent(b) + q
    ensures a == b && r == q
  {
    hide Encode, EncodeComponent, ReadLength;
    ComponentTextReads(a, r);
    ComponentTextReads(b, q);
    if |a| < |b| {
      LongerOne(a, b, r, q);
    } else if |b| < |a| {
      LongerOne(b, a, q, r);
    } else {
      assert a == (a + r)[..|a|] && r == (a + r)[|a|..];
      assert b == (b + q)[..|b|] && q == (b + q)[|b|..];
    }
  }

  lemma LongerOne(a: Text, b: Text, r: Text, q: Text)
    requires a + r == b + q && |a| < |b|
    ensures |Encode(a)| < |Encode(b)|
  {
    hide Encode;
    assert b == (b + q)[..|b|];
    assert a == (a + r)[..|a|];
    assert b == a + b[|a|..];
    LongerText(a, b[|a|..]);
  }

  /** The encoding as text determines the tuple, for all text. */
  lemma EncodingDeterminesTuple(t: ImapIdentityTuple, u: ImapIdentityTuple)
    requires CanonicalImapIdentityEncoding(t) == CanonicalImapIdentityEncoding(u)
    ensures t == u
  {
    hide EncodeComponent, BigIntText;
    var t3 := EncodeComponent(BigIntText(t.uid)) + [];
    var u3 := EncodeComponent(BigIntText(u.uid)) + [];
    var t2, u2 := EncodeComponent(BigIntText(t.uidValidity)) + t3, EncodeComponent(BigIntText(u.uidValidity)) + u3;
    var t1, u1 := EncodeComponent(t.canonicalFolder) + t2, EncodeComponent(u.canonicalFolder) + u2;
    assert CanonicalImapIdentityEncoding(t) == EncodeComponent(t.mailConfigurationId) + t1;
    assert CanonicalImapIdentityEncoding(u) == EncodeComponent(u.mailConfigurationId) + u1;
    ComponentTextInjective(t.mailConfigurationId, u.mailConfigurationId, t1, u1);
    ComponentTextInjective(t.canonicalFolder, u.canonicalFolder, t2, u2);
    ComponentTextInjective(BigIntText(t.uidValidity), BigIntText(u.uidValidity), t3, u3);
    ComponentTextInjective(BigIntText(t.uid), BigIntText(u.uid), [], []);
    BigIntTextInjective(t.uidValidity, u.uidValidity);
    BigIntTextInjective(t.uid, u.uid);
  }
}
