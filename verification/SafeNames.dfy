/**
 A file name chosen by someone else, made safe to save under (sanitize_filename in client/attachment.cpp).
 */
module SafeNames {
  import opened Wire
  import opened Utf8

  const MAX_NAME := 200
  const MAX_EXTENSION := 20
  const SPACE: byte := 0x20
  const DOT: byte := 0x2E
  const UNDERSCORE: byte := 0x5F

  // Control characters, text-direction marks and overrides, the byte order mark, and what some file system forbids.
  predicate Unsafe(cp: int) {
    || cp < 0x20 || 0x7F <= cp <= 0x9F
    || 0x202A <= cp <= 0x202E || 0x2066 <= cp <= 0x2069 || cp == 0x200E || cp == 0x200F || cp == 0x061C || cp == 0xFEFF
    || cp in {0x2F, 0x5C, 0x3A, 0x2A, 0x3F, 0x22, 0x3C, 0x3E, 0x7C}
  }

  function Replaced(cps: seq<int>): seq<int> {
    seq(|cps|, i requires 0 <= i < |cps| => if Unsafe(cps[i]) then UNDERSCORE as int else cps[i])
  }

  predicate Blank(b: byte) {
    b == SPACE || b == DOT
  }

  function TrimFront(s: Bytes): Bytes {
    if s != [] && Blank(s[0]) then TrimFront(s[1..]) else s
  }

  function TrimBack(s: Bytes): Bytes
    decreases |s|
  {
    if s != [] && Blank(s[|s| - 1]) then TrimBack(s[..|s| - 1]) else s
  }

  // The last dot, or -1.
  function LastDot(s: Bytes): int
    decreases |s|
  {
    if s == [] then -1 else if s[|s| - 1] == DOT then |s| - 1 else LastDot(s[..|s| - 1])
  }

  function Extension(s: Bytes): (ext: Bytes)
    ensures |ext| <= MAX_EXTENSION
  {
    var dot := LastDot(s);
    if 0 < dot < |s| && |s| - dot <= MAX_EXTENSION then s[dot..] else []
  }

  // Back to the beginning of the character at k.
  function CutPoint(s: Bytes, k: nat): (r: nat)
    requires k < |s|
    ensures r <= k && (r > 0 ==> !Continuation(s[r])) && forall i :: r < i <= k ==> Continuation(s[i])
  {
    if k > 0 && Continuation(s[k]) then CutPoint(s, k - 1) else k
  }

  function Shortened(s: Bytes): Bytes {
    if |s| <= MAX_NAME then s
    else
      var ext := Extension(s);
      s[..CutPoint(s, MAX_NAME - |ext|)] + ext
  }

  function BeforeDot(s: Bytes): Bytes {
    if s == [] || s[0] == DOT then [] else [s[0]] + BeforeDot(s[1..])
  }

  function TrimSpaces(s: Bytes): Bytes
    decreases |s|
  {
    if s != [] && s[|s| - 1] == SPACE then TrimSpaces(s[..|s| - 1]) else s
  }

  function Upper(s: Bytes): Bytes {
    seq(|s|, i requires 0 <= i < |s| => if 0x61 <= s[i] <= 0x7A then (s[i] as int - 0x20) as byte else s[i])
  }

  // CON, PRN, AUX, NUL, COM1 to COM9 and LPT1 to LPT9, in any case, with anything after a dot.
  predicate Reserved(s: Bytes) {
    var base := Upper(TrimSpaces(BeforeDot(s)));
    || base == Ascii("CON") || base == Ascii("PRN") || base == Ascii("AUX") || base == Ascii("NUL")
    || (|base| == 4 && (base[..3] == Ascii("COM") || base[..3] == Ascii("LPT")) && 0x31 <= base[3] <= 0x39)
  }

  function Attachment(): Bytes {
    [0x61, 0x74, 0x74, 0x61, 0x63, 0x68, 0x6D, 0x65, 0x6E, 0x74]  // "attachment"
  }

  // What is left of a name when unsafe code points are replaced and both ends trimmed; nothing if it is not UTF-8.
  function Trimmed(name: Bytes): Bytes {
    match Decode(name)
    case None => []
    case Some(cps) =>
      EncodeDecode(name);
      TrimBack(TrimFront(Encode(Replaced(cps))))
  }

  function Sanitize(name: Bytes): Bytes {
    var trimmed := Trimmed(name);
    if trimmed == [] then Attachment()
    else
      var short := Shortened(trimmed);
      if Reserved(short) then [UNDERSCORE] + short else short
  }

  // A name that needs an underscore and fills the limit without it.
  predicate Overflows(trimmed: Bytes) {
    |Shortened(trimmed)| == MAX_NAME && Reserved(Shortened(trimmed))
  }

  // A name that has to be cut, has no short extension to end in, and has a dot or a space just before the cut.
  predicate CutAfterBlank(trimmed: Bytes) {
    && |trimmed| > MAX_NAME && Extension(trimmed) == []
    && CutPoint(trimmed, MAX_NAME) > 0 && Blank(trimmed[CutPoint(trimmed, MAX_NAME) - 1])
  }

  // ---- Text that is safe ----

  predicate SafeCps(cps: seq<int>) {
    Scalars(cps) && forall i :: 0 <= i < |cps| ==> !Unsafe(cps[i])
  }

  // Valid UTF-8 without an unsafe code point.
  predicate Safe(s: Bytes) {
    Decode(s).Some? && SafeCps(Decode(s).value)
  }

  lemma EncodedSafe(cps: seq<int>)
    requires SafeCps(cps)
    ensures Safe(Encode(cps))
  {
    DecodeEncode(cps);
  }

  lemma SafeJoin(a: Bytes, b: Bytes)
    requires Safe(a) && Safe(b)
    ensures Safe(a + b)
  {
    EncodeDecode(a);
    EncodeDecode(b);
    EncodeJoin(Decode(a).value, Decode(b).value);
    EncodedSafe(Decode(a).value + Decode(b).value);
  }

  lemma SafeCut(s: Bytes, k: nat)
    requires Safe(s) && k <= |s| && (k < |s| ==> !Continuation(s[k]))
    ensures Safe(s[..k]) && Safe(s[k..])
  {
    EncodeDecode(s);
    var cps := Decode(s).value;
    var j := CutAt(cps, k);
    EncodedSafe(cps[..j]);
    EncodedSafe(cps[j..]);
  }

  lemma SafeByte(b: byte)
    requires 0x20 <= b < 0x7F && !Unsafe(b)
    ensures Safe([b])
  {
    EncodedSafe([b as int]);
    assert Encode([b as int]) == Put(b) + Encode([]) == [b];
  }

  lemma ReplacedSafe(cps: seq<int>)
    requires Scalars(cps)
    ensures SafeCps(Replaced(cps))
  {
  }

  // ---- Each step keeps it ----

  lemma {:induction false} TrimFrontSafe(s: Bytes)
    requires Safe(s)
    ensures Safe(TrimFront(s)) && (TrimFront(s) != [] ==> !Blank(TrimFront(s)[0]))
    decreases |s|
  {
    if s != [] && Blank(s[0]) {
      TailSafe(s);
      TrimFrontSafe(s[1..]);
    }
  }

  lemma TailSafe(s: Bytes)
    requires Safe(s) && s != [] && s[0] < 0x80
    ensures Safe(s[1..])
  {
    var cp, rest := DecodeSplit(s);
    assert Put(cp)[0] == s[0];
    assert rest == s[1..];
    EncodeDecode(rest);
    forall i | 0 <= i < |Decode(rest).value| ensures !Unsafe(Decode(rest).value[i]) {
      assert Decode(s).value[i + 1] == Decode(rest).value[i];
    }
  }

  lemma {:induction false} TrimBackSafe(s: Bytes)
    requires Safe(s)
    ensures Safe(TrimBack(s)) && TrimBack(s) <= s && (TrimBack(s) != [] ==> !Blank(TrimBack(s)[|TrimBack(s)| - 1]))
    decreases |s|
  {
    if s != [] && Blank(s[|s| - 1]) {
      SafeCut(s, |s| - 1);
      TrimBackSafe(s[..|s| - 1]);
    }
  }

  lemma {:induction false} LastDotFound(s: Bytes)
    ensures -1 <= LastDot(s) < |s| && (LastDot(s) >= 0 ==> s[LastDot(s)] == DOT)
    ensures forall i :: LastDot(s) < i < |s| ==> s[i] != DOT
    decreases |s|
  {
    if s != [] && s[|s| - 1] != DOT {
      LastDotFound(s[..|s| - 1]);
      assert s == s[..|s| - 1] + [s[|s| - 1]];
    }
  }

  lemma ExtensionSafe(s: Bytes)
    requires Safe(s)
    ensures Safe(Extension(s))
  {
    LastDotFound(s);
    var dot := LastDot(s);
    if 0 < dot < |s| && |s| - dot <= MAX_EXTENSION { SafeCut(s, dot); }
  }

  // The cut leaves something: a character is at most four bytes long.
  lemma CutLeavesSome(s: Bytes, k: nat)
    requires Safe(s) && 4 <= k < |s|
    ensures CutPoint(s, k) > 0
  {
    EncodeDecode(s);
    var j := StartNear(Decode(s).value, k);
  }

  lemma ShortenedSafe(s: Bytes)
    requires Safe(s) && s != []
    ensures var r := Shortened(s); Safe(r) && r != [] && r[0] == s[0] && |r| <= MAX_NAME
  {
    if |s| > MAX_NAME {
      var ext := Extension(s);
      var k := CutPoint(s, MAX_NAME - |ext|);
      CutLeavesSome(s, MAX_NAME - |ext|);
      SafeCut(s, k);
      ExtensionSafe(s);
      SafeJoin(s[..k], ext);
    }
  }

  // ---- Reserved names ----

  lemma {:induction false} TrimSpacesPrefix(s: Bytes)
    ensures TrimSpaces(s) <= s
    decreases |s|
  {
    if s != [] && s[|s| - 1] == SPACE { TrimSpacesPrefix(s[..|s| - 1]); }
  }

  // A reserved name begins with one of the letters reserved names begin with.
  lemma ReservedBegins(s: Bytes)
    requires Reserved(s)
    ensures s != [] && Upper([s[0]])[0] in {0x43, 0x50, 0x41, 0x4E, 0x4C}
  {
    var base := TrimSpaces(BeforeDot(s));
    TrimSpacesPrefix(BeforeDot(s));
    assert Upper(base)[0] in {0x43, 0x50, 0x41, 0x4E, 0x4C} by { FirstLetters(Upper(base)); }
    assert base[0] == BeforeDot(s)[0] == s[0];
  }

  lemma FirstLetters(base: Bytes)
    requires || base == Ascii("CON") || base == Ascii("PRN") || base == Ascii("AUX") || base == Ascii("NUL")
             || (|base| == 4 && (base[..3] == Ascii("COM") || base[..3] == Ascii("LPT")))
    ensures base != [] && base[0] in {0x43, 0x50, 0x41, 0x4E, 0x4C}
  {
    if |base| == 4 { assert base[..3][0] == base[0]; }
  }

  lemma AttachmentFine()
    ensures Safe(Attachment()) && !Reserved(Attachment()) && Attachment() != [] && !Blank(Attachment()[0]) && |Attachment()| == 10
  {
    hide Safe, Reserved;
    LettersSafe(Attachment());
    LongBase(Attachment());
  }

  lemma LettersSafe(s: Bytes)
    requires forall i :: 0 <= i < |s| ==> 0x61 <= s[i] <= 0x7A
    ensures Safe(s)
  {
    hide Safe;
    var cps := seq(|s|, i requires 0 <= i < |s| => s[i] as int);
    AsciiEncode(s, cps);
    EncodedSafe(cps);
  }

  lemma {:induction false} AsciiEncode(s: Bytes, cps: seq<int>)
    requires |cps| == |s| && forall i :: 0 <= i < |s| ==> cps[i] == s[i] && s[i] < 0x80
    ensures Scalars(cps) && Encode(cps) == s
    decreases |s|
  {
    if s != [] {
      AsciiEncode(s[1..], cps[1..]);
      assert s == [s[0]] + s[1..];
    }
  }

  lemma {:induction false} NoDot(s: Bytes)
    requires forall i :: 0 <= i < |s| ==> s[i] != DOT
    ensures BeforeDot(s) == s
    decreases |s|
  {
    if s != [] {
      NoDot(s[1..]);
      assert s == [s[0]] + s[1..];
    }
  }

  // More than four characters before any dot, the last of them no space: not reserved.
  lemma LongBase(s: Bytes)
    requires |s| > 4 && s[|s| - 1] != SPACE && forall i :: 0 <= i < |s| ==> s[i] != DOT
    ensures !Reserved(s)
  {
    NoDot(s);
  }

  // ---- The result ----

  lemma TrimmedSafe(name: Bytes)
    ensures var t := Trimmed(name); Safe(t) && (t != [] ==> !Blank(t[0]) && !Blank(t[|t| - 1]))
  {
    hide Safe;
    if Decode(name).Some? {
      EncodeDecode(name);
      var cps := Decode(name).value;
      ReplacedSafe(cps);
      EncodedSafe(Replaced(cps));
      TrimFrontSafe(Encode(Replaced(cps)));
      TrimBackSafe(TrimFront(Encode(Replaced(cps))));
    } else {
      EncodedSafe([]);
    }
  }

  // For every name at all: not empty, valid UTF-8, no unsafe code point, no leading dot or space, not a reserved device
  // name. It has at most 200 bytes unless an underscore had to be put before a name of 200, and ends in a dot or a space
  // exactly when it was cut there.
  lemma SanitizedIsSafe(name: Bytes)
    ensures var r := Sanitize(name);
            && r != [] && Safe(r) && !Blank(r[0]) && !Reserved(r) && |r| <= MAX_NAME + 1
            && (|r| <= MAX_NAME <==> !Overflows(Trimmed(name)))
            && (Blank(r[|r| - 1]) <==> CutAfterBlank(Trimmed(name)))
  {
    hide Trimmed, Safe, Reserved, Shortened, Extension;
    AttachmentFine();
    TrimmedSafe(name);
    var t := Trimmed(name);
    if t == [] {
      assert Shortened(t) == [] by { ShortKept(t); }
    } else {
      FinishSafe(t);
      ShortenedEnd(t);
    }
  }

  lemma ShortKept(t: Bytes)
    requires |t| <= MAX_NAME
    ensures Shortened(t) == t
  {
  }

  lemma FinishSafe(trimmed: Bytes)
    requires Safe(trimmed) && trimmed != [] && !Blank(trimmed[0])
    ensures var short := Shortened(trimmed);
            var r := if Reserved(short) then [UNDERSCORE] + short else short;
            && short != [] && |short| <= MAX_NAME && Safe(r) && !Blank(r[0]) && !Reserved(r)
  {
    hide Safe, Reserved, Shortened;
    var short := Shortened(trimmed);
    ShortenedSafe(trimmed);
    if Reserved(short) {
      SafeByte(UNDERSCORE);
      SafeJoin([UNDERSCORE], short);
      var r := [UNDERSCORE] + short;
      if Reserved(r) { ReservedBegins(r); }
    }
  }

  // Only a cut without an extension can bring a dot or a space to the end.
  lemma ShortenedEnd(t: Bytes)
    requires Safe(t) && t != [] && !Blank(t[|t| - 1])
    ensures var r := Shortened(t); r != [] && (Blank(r[|r| - 1]) <==> CutAfterBlank(t))
  {
    hide Safe, LastDot;
    if |t| > MAX_NAME {
      LastDotFound(t);
      CutLeavesSome(t, MAX_NAME - |Extension(t)|);
    }
  }

  // ---- What the cleaning leaves alone ----

  predicate AllBlank(s: Bytes) {
    forall i :: 0 <= i < |s| ==> Blank(s[i])
  }

  predicate Unblank(t: Bytes) {
    t != [] ==> !Blank(t[0]) && !Blank(t[|t| - 1])
  }

  lemma {:induction false} TrimmedFront(s: Bytes) returns (front: Bytes)
    ensures s == front + TrimFront(s) && AllBlank(front) && (TrimFront(s) != [] ==> !Blank(TrimFront(s)[0]))
    decreases |s|
  {
    if s != [] && Blank(s[0]) {
      front := TrimmedFront(s[1..]);
      front := [s[0]] + front;
    } else {
      front := [];
    }
  }

  lemma {:induction false} TrimmedBack(s: Bytes) returns (back: Bytes)
    ensures s == TrimBack(s) + back && AllBlank(back) && (TrimBack(s) != [] ==> !Blank(TrimBack(s)[|TrimBack(s)| - 1]))
    decreases |s|
  {
    if s != [] && Blank(s[|s| - 1]) {
      back := TrimmedBack(s[..|s| - 1]);
      back := back + [s[|s| - 1]];
    } else {
      back := [];
    }
  }

  // A short extension begins at e: at the last dot, which is not the first byte; or there is none, and e is the end.
  predicate ExtensionAt(t: Bytes, e: nat)
    requires e <= |t|
  {
    if e < |t| then t[e] == DOT && 0 < e && |t| - e <= MAX_EXTENSION && forall i :: e < i < |t| ==> t[i] != DOT
    else forall i :: 0 < i < |t| && |t| - i <= MAX_EXTENSION && t[i] == DOT ==> exists j :: i < j < |t| && t[j] == DOT
  }

  // The last character boundary up to n.
  predicate BoundaryAt(t: Bytes, k: nat, n: int) {
    k <= n < |t| && (k > 0 ==> !Continuation(t[k])) && forall i :: k < i <= n ==> Continuation(t[i])
  }

  // What becomes of a trimmed name: it is kept whole if it fits, and otherwise cut at the last character boundary that
  // leaves room for a short extension, which is kept; a reserved name gets an underscore.
  predicate Kept(t: Bytes, r: Bytes, k: nat, e: nat)
    requires k <= e <= |t|
  {
    var short := t[..k] + t[e..];
    && (|t| <= MAX_NAME ==> short == t)
    && (|t| > MAX_NAME ==> ExtensionAt(t, e) && BoundaryAt(t, k, MAX_NAME - (|t| - e)))
    && r == (if Reserved(short) then [UNDERSCORE] else []) + short
  }

  // For every name: if it is not UTF-8, or nothing but dots and spaces is left of it, it becomes "attachment"; otherwise each
  // unsafe code point becomes an underscore, the dots and spaces at both ends go, and the rest is kept as said.
  lemma SanitizedKeeps(name: Bytes) returns (front: Bytes, t: Bytes, back: Bytes, k: nat, e: nat)
    ensures k <= e <= |t|
    ensures Decode(name).None? ==> Sanitize(name) == Attachment()
    ensures Decode(name).Some? ==>
              var cps := Decode(name).value;
              && Scalars(Replaced(cps)) && Encode(Replaced(cps)) == front + t + back && AllBlank(front) && AllBlank(back) && Unblank(t)
              && if t == [] then Sanitize(name) == Attachment() else Kept(t, Sanitize(name), k, e)
  {
    hide Reserved, Shortened, Kept, Replaced, Encode, TrimFront, TrimBack, Decode;
    front, t, back, k, e := [], [], [], 0, 0;
    if Decode(name).Some? {
      EncodeDecode(name);
      StillScalars(Decode(name).value);
      var whole := Encode(Replaced(Decode(name).value));
      front := TrimmedFront(whole);
      back := TrimmedBack(TrimFront(whole));
      t := TrimBack(TrimFront(whole));
      assert whole == front + t + back;
      if t != [] { k, e := ShortenedKeeps(t); }
    }
  }

  lemma StillScalars(cps: seq<int>)
    requires Scalars(cps)
    ensures Scalars(Replaced(cps))
  {
  }

  lemma ShortenedKeeps(t: Bytes) returns (k: nat, e: nat)
    ensures k <= e <= |t| && Kept(t, if Reserved(Shortened(t)) then [UNDERSCORE] + Shortened(t) else Shortened(t), k, e)
  {
    hide *;
    Underscored(Shortened(t));
    if |t| <= MAX_NAME {
      ShortKept(t);
      k, e := |t|, |t|;
      KeptWhole(t);
    } else {
      k, e := ShortenedIs(t);
      KeptCut(t, k, e);
    }
  }

  lemma ShortenedIs(t: Bytes) returns (k: nat, e: nat)
    requires |t| > MAX_NAME
    ensures k <= e <= |t| && Shortened(t) == t[..k] + t[e..] && ExtensionAt(t, e) && BoundaryAt(t, k, MAX_NAME - (|t| - e))
  {
    hide Extension, CutPoint, ExtensionAt, BoundaryAt, Continuation;
    var ext := Extension(t);
    ExtensionFound(t);
    e := |t| - |ext|;
    k := Cut(t, MAX_NAME - |ext|);
  }

  lemma KeptWhole(t: Bytes)
    requires |t| <= MAX_NAME
    ensures Kept(t, (if Reserved(t) then [UNDERSCORE] else []) + t, |t|, |t|)
  {
    hide Reserved;
    assert t[..|t|] + t[|t|..] == t;
  }

  lemma KeptCut(t: Bytes, k: nat, e: nat)
    requires k <= e <= |t| && |t| > MAX_NAME && ExtensionAt(t, e) && BoundaryAt(t, k, MAX_NAME - (|t| - e))
    ensures var short := t[..k] + t[e..]; Kept(t, (if Reserved(short) then [UNDERSCORE] else []) + short, k, e)
  {
    hide Reserved, ExtensionAt, BoundaryAt;
  }

  lemma Underscored(short: Bytes)
    ensures (if Reserved(short) then [UNDERSCORE] + short else short) == (if Reserved(short) then [UNDERSCORE] else []) + short
  {
    hide Reserved;
    assert [] + short == short;
  }

  lemma Cut(t: Bytes, n: nat) returns (k: nat)
    requires n < |t|
    ensures k == CutPoint(t, n) <= n && BoundaryAt(t, k, n)
  {
    k := CutPoint(t, n);
  }

  lemma ExtensionFound(t: Bytes)
    ensures var ext := Extension(t); |ext| <= |t| && t[|t| - |ext|..] == ext && ExtensionAt(t, |t| - |ext|)
  {
    hide LastDot;
    LastDotFound(t);
  }

  lemma {:induction false} SmallByteIsCodePoint(cps: seq<int>, i: nat)
    requires Scalars(cps) && i < |Encode(cps)| && Encode(cps)[i] < 0x80
    ensures Encode(cps)[i] as int in cps
    decreases |cps|
  {
    var first := Put(cps[0]);
    if i >= |first| { SmallByteIsCodePoint(cps[1..], i - |first|); }
  }

  // So whatever a name was, no byte of the result separates folders, ends a string, or means something to a file system.
  lemma NoSeparators(name: Bytes, i: nat)
    requires i < |Sanitize(name)|
    ensures Sanitize(name)[i] >= 0x20 && Sanitize(name)[i] !in {0x2F, 0x5C, 0x3A, 0x2A, 0x3F, 0x22, 0x3C, 0x3E, 0x7C, 0x7F}
  {
    hide Sanitize, Decode;
    SanitizedIsSafe(name);
    var r := Sanitize(name);
    var cps := Decode(r).value;
    EncodeDecode(r);
    if r[i] < 0x80 { SmallByteIsCodePoint(cps, i); }
  }

  // A name that needs nothing done to it is kept as it is.
  lemma GoodNameKept(name: Bytes)
    requires Safe(name) && 1 <= |name| <= MAX_NAME && !Blank(name[0]) && !Blank(name[|name| - 1]) && !Reserved(name)
    ensures Sanitize(name) == name
  {
    hide Reserved;
    EncodeDecode(name);
    var cps := Decode(name).value;
    assert Replaced(cps) == cps;
  }

  // Letters, as many as you like.
  function Letters(n: nat): Bytes {
    seq(n, i => 0x61)
  }

  lemma CutPlain(s: Bytes, dot: int)
    requires |s| > MAX_NAME && LastDot(s) == dot && (dot < 0 || |s| - dot > MAX_EXTENSION) && !Continuation(s[MAX_NAME])
    ensures Shortened(s) == s[..MAX_NAME]
  {
    hide LastDot;
  }

  // A long name that begins like a device name comes out at 201 bytes: the underscore is put before it after the cut.
  lemma OneByteOver(n: nat)
    requires n > MAX_NAME
    ensures |Sanitize([0x43, 0x4F, 0x4E, DOT] + Letters(n))| == MAX_NAME + 1
  {
    hide Sanitize, Reserved, Shortened, LastDot;
    var name := [0x43, 0x4F, 0x4E, DOT] + Letters(n);
    PlainNameKept(name);
    LastDotAt(name, 3);
    CutPlain(name, 3);
    ConReserved(name[..MAX_NAME]);
  }

  lemma ConReserved(s: Bytes)
    requires |s| > 3 && s[..4] == [0x43, 0x4F, 0x4E, DOT]
    ensures Reserved(s)
  {
    assert s[0] == s[..4][0] && s[1] == s[..4][1] && s[2] == s[..4][2] && s[3] == s[..4][3];
    DotAt(s, 3);
    assert s[..3] == [0x43, 0x4F, 0x4E];
    assert Upper([0x43, 0x4F, 0x4E]) == Ascii("CON");
  }

  lemma {:induction false} LastDotAt(s: Bytes, k: nat)
    requires k < |s| && s[k] == DOT && forall i :: k < i < |s| ==> s[i] != DOT
    ensures LastDot(s) == k
    decreases |s|
  {
    if s[|s| - 1] != DOT { LastDotAt(s[..|s| - 1], k); }
  }

  predicate Plain(s: Bytes) {
    forall i :: 0 <= i < |s| ==> s[i] == DOT || s[i] == SPACE || 0x41 <= s[i] <= 0x5A || 0x61 <= s[i] <= 0x7A
  }

  lemma PlainDecodes(s: Bytes)
    requires Plain(s)
    ensures Decode(s).Some? && Scalars(Decode(s).value) && Replaced(Decode(s).value) == Decode(s).value && Encode(Decode(s).value) == s
  {
    hide Decode, Encode;
    var cps := seq(|s|, i requires 0 <= i < |s| => s[i] as int);
    AsciiEncode(s, cps);
    DecodeEncode(cps);
  }

  // A name of ASCII letters, dots and spaces that begins and ends with a letter goes into the cut unchanged.
  lemma PlainNameKept(s: Bytes)
    requires s != [] && !Blank(s[0]) && !Blank(s[|s| - 1]) && Plain(s)
    ensures Sanitize(s) == var short := Shortened(s); if Reserved(short) then [UNDERSCORE] + short else short
  {
    hide Reserved, Shortened, Decode, Encode, Replaced, Plain;
    PlainDecodes(s);
  }

  // A long name without a short extension may end in a dot: the end is trimmed before the cut, not after.
  lemma CutMayEndInDot(n: nat)
    requires n > MAX_EXTENSION
    ensures var r := Sanitize(Letters(199) + [DOT] + Letters(n)); |r| == MAX_NAME && r[MAX_NAME - 1] == DOT
  {
    hide Sanitize, Reserved, Shortened, LastDot;
    var name := Letters(199) + [DOT] + Letters(n);
    PlainNameKept(name);
    LastDotAt(name, 199);
    CutPlain(name, 199);
    LongName(name[..MAX_NAME], 199);
  }

  // Or in a space.
  lemma CutMayEndInSpace(n: nat)
    requires n > 0
    ensures var r := Sanitize(Letters(199) + [SPACE] + Letters(n)); |r| == MAX_NAME && r[MAX_NAME - 1] == SPACE
  {
    hide Sanitize, Reserved, Shortened, LastDot;
    var name := Letters(199) + [SPACE] + Letters(n);
    PlainNameKept(name);
    NoLastDot(name);
    CutPlain(name, -1);
    LettersThenSpace(name[..MAX_NAME]);
  }

  lemma {:induction false} NoLastDot(s: Bytes)
    requires forall i :: 0 <= i < |s| ==> s[i] != DOT
    ensures LastDot(s) == -1
    decreases |s|
  {
    if s != [] { NoLastDot(s[..|s| - 1]); }
  }

  lemma LettersThenSpace(s: Bytes)
    requires |s| > 5 && s[|s| - 1] == SPACE && forall i :: 0 <= i < |s| - 1 ==> s[i] == 0x61
    ensures !Reserved(s)
  {
    NoDot(s);
    assert TrimSpaces(s) == s[..|s| - 1];
  }

  lemma LongName(s: Bytes, k: nat)
    requires 4 < k < |s| && s[k] == DOT && forall i :: 0 <= i < k ==> s[i] == 0x61
    ensures !Reserved(s)
  {
    DotAt(s, k);
    assert s[..k][k - 1] != SPACE;
  }

  lemma {:induction false} DotAt(s: Bytes, k: nat)
    requires k < |s| && s[k] == DOT && forall i :: 0 <= i < k ==> s[i] != DOT
    ensures BeforeDot(s) == s[..k]
    decreases k
  {
    if k > 0 {
      DotAt(s[1..], k - 1);
      assert s[..k] == [s[0]] + s[1..][..k - 1];
    }
  }

  // ---- The loops ----

  method TrimStart(s: Bytes) returns (r: Bytes)
    ensures r == TrimFront(s)
  {
    var from := 0;
    assert s[0..] == s;
    while from < |s| && Blank(s[from])
      invariant 0 <= from <= |s| && TrimFront(s) == TrimFront(s[from..])
    {
      assert s[from..][1..] == s[from + 1..];
      from := from + 1;
    }
    return s[from..];
  }

  method TrimEnd(s: Bytes) returns (r: Bytes)
    ensures r == TrimBack(s)
  {
    var to := |s|;
    assert s[..to] == s;
    while to > 0 && Blank(s[to - 1])
      invariant 0 <= to <= |s| && TrimBack(s) == TrimBack(s[..to])
    {
      assert s[..to][..to - 1] == s[..to - 1];
      to := to - 1;
    }
    return s[..to];
  }

  method TrimBlanks(s: Bytes) returns (r: Bytes)
    ensures r == TrimBack(TrimFront(s))
  {
    var front := TrimStart(s);
    r := TrimEnd(front);
  }

  method FindLastDot(s: Bytes) returns (dot: int)
    ensures dot == LastDot(s)
  {
    dot := |s| - 1;
    assert s[..dot + 1] == s;
    while dot >= 0 && s[dot] != DOT
      invariant -1 <= dot < |s| && LastDot(s) == LastDot(s[..dot + 1])
    {
      assert s[..dot + 1][..dot] == s[..dot];
      dot := dot - 1;
    }
  }

  method ShortenName(s: Bytes) returns (r: Bytes)
    ensures r == Shortened(s)
  {
    hide LastDot;
    if |s| <= MAX_NAME { return s; }
    var dot := FindLastDot(s);
    var ext := if 0 < dot < |s| && |s| - dot <= MAX_EXTENSION then s[dot..] else [];
    var keep := MAX_NAME - |ext|;
    while keep > 0 && Continuation(s[keep])
      invariant 0 <= keep <= MAX_NAME - |ext| && CutPoint(s, keep) == CutPoint(s, MAX_NAME - |ext|)
    {
      keep := keep - 1;
    }
    return s[..keep] + ext;
  }
}
