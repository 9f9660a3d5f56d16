/**
 The signed message record (client/message_record.cpp): its bytes and their limits. Signing is a parameter.
 */
module Record {
  import opened Wire
  import SigningInputs

  const MAGIC := 0x50514D52
  const VERSION := 2
  const ID := 16
  const HASH := 32
  const MAX_TEXT := 32 * 1024
  const MAX_RECORD := 40 * 1024
  const MAX_SEEN := 15
  const MAX_SIGNATURE := 8192
  const MAX_RECEIPT_IDS := 256

  // Types 1 to 10: Text, Receipt, TokenGrant, Conversation, Forward, ArchiveGrant, Checkpoint, DeleteRequest,
  // DeleteAccept, Attachment.
  datatype Rec = Rec(conversation: Bytes, message: Bytes, sender: Bytes, recipients: Bytes, sentAt: int, kind: int, payload: Bytes,
                     ownPrev: Bytes, seen: seq<Bytes>)

  // The most a payload of each type may hold, and whether it stands outside the transcript.
  function PayloadLimit(kind: int): int {
    if kind == 1 then MAX_TEXT
    else if kind == 2 then 1 + 4 + MAX_RECEIPT_IDS * (4 + ID)
    else if kind == 3 then 32
    else if kind == 4 then 1024
    else if kind == 5 then 4 + HASH + 4 + 8 * 1024
    else if kind == 6 then 512
    else if kind == 7 then 8 + 4 + HASH
    else if kind == 8 then 4096
    else if kind == 9 then 8448
    else 2048
  }

  predicate Control(kind: int) {
    4 <= kind <= 9
  }

  // well_formed; the time sent is an unsigned 64-bit number by its type.
  predicate WellFormed(r: Rec) {
    && 0 <= r.sentAt < TWO64
    && |r.conversation| == ID && |r.message| == ID && |r.sender| == HASH && |r.recipients| == HASH
    && (r.ownPrev == [] || |r.ownPrev| == HASH)
    && |r.seen| <= MAX_SEEN && (forall i :: 0 <= i < |r.seen| ==> |r.seen[i]| == HASH) && Distinct(r.seen)
    && 1 <= r.kind <= 10 && |r.payload| <= PayloadLimit(r.kind)
    && (r.kind == 3 ==> |r.payload| == 32)
    && (Control(r.kind) ==> r.ownPrev == [] && r.seen == [])
  }

  // ---- The body ----

  type Ids = (Bytes, (Bytes, (Bytes, Bytes)))
  type Content = (int, (int, (Bytes, Bytes)))
  type Fields = (Ids, (Content, seq<Bytes>))

  function IdsC(): Codec<Ids> {
    Then(BlobC(ID), Then(BlobC(ID), Then(BlobC(HASH), BlobC(HASH))))
  }

  function ContentC(): Codec<Content> {
    Then(U64C(), Then(U32C(), Then(BlobC(MAX_TEXT + 1), BlobC(HASH))))
  }

  // Version 1 has one hash seen, or none.
  function SeenOneC(): Codec<seq<Bytes>> {
    Where(As(BlobC(HASH), (b: Bytes) => if b == [] then [] else [b], (xs: seq<Bytes>) => if xs == [] then [] else xs[0]),
          (xs: seq<Bytes>) => |xs| <= 1 && (xs != [] ==> xs[0] != []))
  }

  function SeenC(): Codec<seq<Bytes>> {
    ListC(BlobC(HASH), 0, MAX_SEEN)
  }

  function FieldsC(seen: Codec<seq<Bytes>>): Codec<Fields> {
    Then(IdsC(), Then(ContentC(), seen))
  }

  function MakeRec(f: Fields): Rec {
    Rec(f.0.0, f.0.1.0, f.0.1.1.0, f.0.1.1.1, f.1.0.0, f.1.0.1.0, f.1.0.1.1.0, f.1.0.1.1.1, f.1.1)
  }

  function SplitRec(r: Rec): Fields {
    ((r.conversation, (r.message, (r.sender, r.recipients))), ((r.sentAt, (r.kind, (r.payload, r.ownPrev))), r.seen))
  }

  function Good(newest: int): Rec -> bool {
    (r: Rec) => r.kind <= newest && WellFormed(r)
  }

  function RecC(seen: Codec<seq<Bytes>>, newest: int): Codec<Rec> {
    Where(As(FieldsC(seen), MakeRec, SplitRec), Good(newest))
  }

  lemma IdsLawful()
    ensures Lawful(IdsC())
  {
    hide Lawful, BlobC, Then;
    BlobLawful(ID);
    BlobLawful(HASH);
    ThenLawful(BlobC(HASH), BlobC(HASH));
    ThenLawful(BlobC(ID), Then(BlobC(HASH), BlobC(HASH)));
    ThenLawful(BlobC(ID), Then(BlobC(ID), Then(BlobC(HASH), BlobC(HASH))));
  }

  lemma ContentLawful()
    ensures Lawful(ContentC())
  {
    hide Lawful, BlobC, Then, U32C, U64C;
    U32Lawful();
    U64Lawful();
    BlobLawful(MAX_TEXT + 1);
    BlobLawful(HASH);
    ThenLawful(BlobC(MAX_TEXT + 1), BlobC(HASH));
    ThenLawful(U32C(), Then(BlobC(MAX_TEXT + 1), BlobC(HASH)));
    ThenLawful(U64C(), Then(U32C(), Then(BlobC(MAX_TEXT + 1), BlobC(HASH))));
  }

  lemma RecLawful(seen: Codec<seq<Bytes>>, newest: int)
    requires Lawful(seen)
    ensures Lawful(RecC(seen, newest))
  {
    hide Lawful, IdsC, ContentC, Then, Where, WellFormed;
    IdsLawful();
    ContentLawful();
    ThenLawful(ContentC(), seen);
    ThenLawful(IdsC(), Then(ContentC(), seen));
    AsLawful(FieldsC(seen), MakeRec, SplitRec);
    WhereLawful(As(FieldsC(seen), MakeRec, SplitRec), Good(newest));
  }

  function Body(r: Rec): Bytes {
    U32(MAGIC) + (U32(VERSION) + RecC(SeenC(), 10).enc(r))
  }

  function ParseBody(b: Bytes): Option<Rec> {
    match ReadU32(b)
    case None => None
    case Some((magic, r1)) =>
      match ReadU32(r1)
      case None => None
      case Some((version, r2)) =>
        if magic != MAGIC then None
        else if version == 1 then Whole(RecC(SeenOneC(), 3), r2)
        else if version == 2 then Whole(RecC(SeenC(), 10), r2)
        else None
  }

  // ---- The record ----

  datatype SignedRec = SignedRec(rec: Rec, raw: Bytes, body: Bytes, signature: Bytes)

  datatype Crypto = Crypto(sign: Bytes -> Bytes, verify: (Bytes, Bytes, Bytes) -> bool, fingerprint: Bytes -> Bytes)

  function SigningInput(body: Bytes): Bytes {
    Blob(Ascii("pq-suite v3 message")) + body
  }

  // sign_record; a record that is not well formed is refused.
  function Sign(crypto: Crypto, r: Rec): Option<Bytes> {
    if WellFormed(r) then Some(Blob(Body(r)) + Blob(crypto.sign(SigningInput(Body(r))))) else None
  }

  function RawC(): Codec<(Bytes, Bytes)> {
    Then(BlobC(MAX_RECORD), BlobC(MAX_SIGNATURE))
  }

  function Parse(raw: Bytes): Option<SignedRec> {
    if |raw| > MAX_RECORD then None
    else
      var parts: Option<(Bytes, Bytes)> := Whole(RawC(), raw);
      if parts.None? then None
      else
        match ParseBody(parts.value.0)
        case None => None
        case Some(r) => Some(SignedRec(r, raw, parts.value.0, parts.value.1))
  }

  predicate Verifies(crypto: Crypto, s: SignedRec, key: Bytes) {
    crypto.fingerprint(key) == s.rec.sender && crypto.verify(SigningInput(s.body), s.signature, key)
  }

  // ---- Its size ----

  const LONGEST_BODY := 33484
  const LONGEST_SIGNATURE := 7468

  lemma {:induction false} SeenLong(xs: seq<Bytes>)
    requires forall i :: 0 <= i < |xs| ==> |xs[i]| == HASH
    ensures |EncAll(BlobC(HASH), xs)| == 36 * |xs|
    decreases |xs|
  {
    if xs != [] { SeenLong(xs[1..]); }
  }

  lemma FieldsBytes(r: Rec)
    ensures RecC(SeenC(), 10).enc(r) ==
              (Blob(r.conversation) + (Blob(r.message) + (Blob(r.sender) + Blob(r.recipients)))) +
              ((U64(r.sentAt) + (U32(r.kind) + (Blob(r.payload) + Blob(r.ownPrev)))) + SeenC().enc(r.seen))
  {
    hide Blob, U32, U64, SeenC;
    var f := SplitRec(r);
    assert RecC(SeenC(), 10).enc(r) == FieldsC(SeenC()).enc(f);
    assert Then(BlobC(HASH), BlobC(HASH)).enc(f.0.1.1) == Blob(r.sender) + Blob(r.recipients);
    assert Then(BlobC(ID), Then(BlobC(HASH), BlobC(HASH))).enc(f.0.1) == Blob(r.message) + (Blob(r.sender) + Blob(r.recipients));
    assert IdsC().enc(f.0) == Blob(r.conversation) + (Blob(r.message) + (Blob(r.sender) + Blob(r.recipients)));
    assert Then(BlobC(MAX_TEXT + 1), BlobC(HASH)).enc(f.1.0.1.1) == Blob(r.payload) + Blob(r.ownPrev);
    assert Then(U32C(), Then(BlobC(MAX_TEXT + 1), BlobC(HASH))).enc(f.1.0.1) == U32(r.kind) + (Blob(r.payload) + Blob(r.ownPrev));
    assert ContentC().enc(f.1.0) == U64(r.sentAt) + (U32(r.kind) + (Blob(r.payload) + Blob(r.ownPrev)));
    assert Then(ContentC(), SeenC()).enc(f.1) == ContentC().enc(f.1.0) + SeenC().enc(r.seen);
  }

  // The length of the body of a well-formed record, exactly.
  lemma BodyLong(r: Rec)
    requires WellFormed(r)
    ensures |Body(r)| == 140 + |r.payload| + |r.ownPrev| + 4 + 36 * |r.seen|
  {
    hide RecC;
    FieldsBytes(r);
    SeenLong(r.seen);
    hide U32, U64, Blob, EncAll;
    Lengths(MAGIC, r.conversation);
    Lengths(VERSION, r.message);
    Lengths(r.kind, r.sender);
    Lengths(|r.seen|, r.recipients);
    Lengths(0, r.payload);
    Lengths(0, r.ownPrev);
    Length64(r.sentAt);
  }

  lemma Lengths(v: int, b: Bytes)
    ensures |U32(v)| == 4 && |Blob(b)| == 4 + |b|
  {
  }

  lemma Length64(v: int)
    ensures |U64(v)| == 8
  {
  }

  // Every record that can be signed fits the limit on a whole record with a signature of up to 7468 bytes, and with
  // no more than that: the longest record reaches it.
  lemma Fits(r: Rec, signature: Bytes)
    requires WellFormed(r)
    ensures |Body(r)| <= LONGEST_BODY
    ensures |signature| <= LONGEST_SIGNATURE ==> |Blob(Body(r)) + Blob(signature)| <= MAX_RECORD
  {
    hide Body, Blob;
    BodyLong(r);
    Lengths(0, Body(r));
    Lengths(0, signature);
  }

  lemma NoRoomForMore(r: Rec, signature: Bytes)
    requires WellFormed(r) && |r.payload| == MAX_TEXT && |r.ownPrev| == HASH && |r.seen| == MAX_SEEN && |signature| > LONGEST_SIGNATURE
    ensures |Blob(Body(r)) + Blob(signature)| > MAX_RECORD && Parse(Blob(Body(r)) + Blob(signature)).None?
  {
    hide Body, Blob;
    BodyLong(r);
    Lengths(0, Body(r));
    Lengths(0, signature);
  }

  // ---- Round trips ----

  lemma IdsOk(f: Ids)
    requires |f.0| == ID && |f.1.0| == ID && |f.1.1.0| == HASH && |f.1.1.1| == HASH
    ensures IdsC().ok(f)
  {
    ThenOk(BlobC(HASH), BlobC(HASH), f.1.1.0, f.1.1.1);
    ThenOk(BlobC(ID), Then(BlobC(HASH), BlobC(HASH)), f.1.0, f.1.1);
  }

  lemma ContentOk(f: Content)
    requires 0 <= f.0 < TWO64 && 0 <= f.1.0 < TWO32 && |f.1.1.0| <= MAX_TEXT && |f.1.1.1| <= HASH
    ensures ContentC().ok(f)
  {
    ThenOk(BlobC(MAX_TEXT + 1), BlobC(HASH), f.1.1.0, f.1.1.1);
    ThenOk(U32C(), Then(BlobC(MAX_TEXT + 1), BlobC(HASH)), f.1.0, f.1.1);
  }

  lemma SeenOk(xs: seq<Bytes>)
    requires |xs| <= MAX_SEEN && forall i :: 0 <= i < |xs| ==> |xs[i]| == HASH
    ensures SeenC().ok(xs)
  {
    forall i | 0 <= i < |xs| ensures BlobC(HASH).ok(xs[i]) {}
  }

  lemma CheckedOk(c: Codec<Fields>, p: Rec -> bool, r: Rec)
    requires c.ok(SplitRec(r)) && p(r)
    ensures Where(As(c, MakeRec, SplitRec), p).ok(r)
  {
  }

  lemma FieldsOk(r: Rec)
    requires WellFormed(r)
    ensures FieldsC(SeenC()).ok(SplitRec(r))
  {
    hide IdsC, ContentC, SeenC, Then, Distinct;
    var f := SplitRec(r);
    IdsOk(f.0);
    ContentOk(f.1.0);
    SeenOk(r.seen);
    ThenOk(ContentC(), SeenC(), f.1.0, f.1.1);
    ThenOk(IdsC(), Then(ContentC(), SeenC()), f.0, f.1);
  }

  lemma RecOk(r: Rec)
    requires WellFormed(r)
    ensures RecC(SeenC(), 10).ok(r)
  {
    FieldsOk(r);
    hide FieldsC, SeenC, Where, As, PayloadLimit, Distinct;
    assert Good(10)(r);
    CheckedOk(FieldsC(SeenC()), Good(10), r);
  }

  lemma SeenLawful()
    ensures Lawful(SeenC())
  {
    hide Lawful, BlobC, ListC;
    BlobLawful(HASH);
    ListLawful(BlobC(HASH), 0, MAX_SEEN);
  }

  lemma BodyRoundTrip(r: Rec)
    requires WellFormed(r)
    ensures ParseBody(Body(r)) == Some(r)
  {
    hide Lawful, RecC, SeenC, U32, ReadU32, WellFormed;
    SeenLawful();
    RecLawful(SeenC(), 10);
    RecOk(r);
    WholeReads(RecC(SeenC(), 10), r);
    var tail := RecC(SeenC(), 10).enc(r);
    U32Reads(MAGIC, U32(VERSION) + tail);
    U32Reads(VERSION, tail);
  }

  lemma RawLawful()
    ensures Lawful(RawC())
  {
    hide Lawful, BlobC;
    BlobLawful(MAX_RECORD);
    BlobLawful(MAX_SIGNATURE);
    ThenLawful(BlobC(MAX_RECORD), BlobC(MAX_SIGNATURE));
  }

  lemma RawReads(body: Bytes, signature: Bytes)
    requires |body| <= MAX_RECORD && |signature| <= MAX_SIGNATURE
    ensures Whole(RawC(), Blob(body) + Blob(signature)) == Some((body, signature))
  {
    RawLawful();
    hide Lawful, Blob;
    assert RawC().enc((body, signature)) == Blob(body) + Blob(signature);
    WholeReads(RawC(), (body, signature));
  }

  // A record that was signed parses as itself, and verifies with the sender's key.
  lemma SignedParses(crypto: Crypto, r: Rec, key: Bytes)
    requires WellFormed(r) && |crypto.sign(SigningInput(Body(r)))| <= LONGEST_SIGNATURE
    requires crypto.fingerprint(key) == r.sender && crypto.verify(SigningInput(Body(r)), crypto.sign(SigningInput(Body(r))), key)
    ensures var raw := Sign(crypto, r).value;
            var s := Parse(raw);
            s.Some? && s.value == SignedRec(r, raw, Body(r), crypto.sign(SigningInput(Body(r)))) && Verifies(crypto, s.value, key)
  {
    hide Body, Blob, ParseBody, RawC, WellFormed, SigningInput;
    var signature := crypto.sign(SigningInput(Body(r)));
    Fits(r, signature);
    RawReads(Body(r), signature);
    BodyRoundTrip(r);
  }

  // Whatever parses is well formed, and in the present version its bytes are exactly what signing would have written.
  lemma ParsedStrict(raw: Bytes)
    requires Parse(raw).Some?
    ensures var s := Parse(raw).value;
            && WellFormed(s.rec) && raw == Blob(s.body) + Blob(s.signature)
            && (ReadU32(ReadU32(s.body).value.1).value.0 == VERSION ==> s.body == Body(s.rec))
  {
    hide Lawful, RawC, RecC, SeenC, SeenOneC, WellFormed, U32, ReadU32;
    RawLawful();
    WholeAccepts(RawC(), raw);
    var s := Parse(raw).value;
    RawBytes(s.body, s.signature);
    U32Accepts(s.body);
    var (magic, r1) := ReadU32(s.body).value;
    U32Accepts(r1);
    var (version, r2) := ReadU32(r1).value;
    if version == 2 {
      SeenLawful();
      RecLawful(SeenC(), 10);
      WholeAccepts(RecC(SeenC(), 10), r2);
      OkWellFormed(SeenC(), 10, s.rec);
    } else {
      ReadWellFormed(SeenOneC(), 3, r2);
    }
  }

  lemma RawBytes(body: Bytes, signature: Bytes)
    ensures RawC().enc((body, signature)) == Blob(body) + Blob(signature)
  {
  }

  lemma OkWellFormed(seen: Codec<seq<Bytes>>, newest: int, r: Rec)
    requires RecC(seen, newest).ok(r)
    ensures WellFormed(r)
  {
  }

  lemma ReadWellFormed(seen: Codec<seq<Bytes>>, newest: int, b: Bytes)
    requires Whole(RecC(seen, newest), b).Some?
    ensures WellFormed(Whole(RecC(seen, newest), b).value)
  {
    hide WellFormed, FieldsC;
  }

  // ---- Exactly what parses ----

  // The first one-to-one chats: types 1 to 3 only, and at most one hash seen.
  function OldBody(r: Rec): Bytes {
    U32(MAGIC) + (U32(1) + RecC(SeenOneC(), 3).enc(r))
  }

  predicate OldForm(r: Rec) {
    WellFormed(r) && r.kind <= 3 && |r.seen| <= 1
  }

  lemma SeenOneLawful()
    ensures Lawful(SeenOneC())
  {
    hide BlobC;
    BlobLawful(HASH);
    var c, d := BlobC(HASH), SeenOneC();
    forall xs, rest | d.ok(xs) ensures d.dec(d.enc(xs) + rest) == Some((xs, rest)) {
      var b := if xs == [] then [] else xs[0];
      assert d.enc(xs) == c.enc(b) && c.ok(b);
      assert c.dec(c.enc(b) + rest) == Some((b, rest));
      assert xs == if b == [] then [] else [b];
    }
    forall b | d.dec(b).Some? ensures var (xs, rest) := d.dec(b).value; d.ok(xs) && b == d.enc(xs) + rest {
      var (x, rest) := c.dec(b).value;
      var xs := d.dec(b).value.0;
      assert xs == (if x == [] then [] else [x]) && d.enc(xs) == c.enc(x);
    }
  }

  lemma OldFieldsOk(r: Rec)
    requires OldForm(r)
    ensures FieldsC(SeenOneC()).ok(SplitRec(r))
  {
    hide IdsC, ContentC, Then, Distinct;
    var f := SplitRec(r);
    IdsOk(f.0);
    ContentOk(f.1.0);
    assert SeenOneC().ok(r.seen);
    hide SeenOneC;
    ThenOk(ContentC(), SeenOneC(), f.1.0, f.1.1);
    ThenOk(IdsC(), Then(ContentC(), SeenOneC()), f.0, f.1);
  }

  lemma OldOk(r: Rec)
    ensures RecC(SeenOneC(), 3).ok(r) <==> OldForm(r)
  {
    if OldForm(r) {
      OldFieldsOk(r);
      hide FieldsC, SeenOneC, Where, As, PayloadLimit, Distinct;
      assert Good(3)(r);
      CheckedOk(FieldsC(SeenOneC()), Good(3), r);
    } else if RecC(SeenOneC(), 3).ok(r) {
      OkOldForm(r);
    }
  }

  lemma OkOldForm(r: Rec)
    requires RecC(SeenOneC(), 3).ok(r)
    ensures OldForm(r)
  {
    hide IdsC, ContentC, PayloadLimit, Distinct;
    var f := SplitRec(r);
    assert FieldsC(SeenOneC()).ok(f) && Good(3)(r);
    assert Then(ContentC(), SeenOneC()).ok(f.1);
    assert SeenOneC().ok(r.seen);
  }

  // A body parses exactly as the record it was written for, in the present form or the first; nothing else parses.
  lemma ParsesExactly(b: Bytes, r: Rec)
    ensures ParseBody(b) == Some(r) <==> (WellFormed(r) && b == Body(r)) || (OldForm(r) && b == OldBody(r))
  {
    hide Lawful, RecC, SeenC, SeenOneC, U32, ReadU32, WellFormed;
    if WellFormed(r) && b == Body(r) { BodyRoundTrip(r); }
    if OldForm(r) && b == OldBody(r) { OldRoundTrip(r); }
    if ParseBody(b) == Some(r) {
      U32Accepts(b);
      var (magic, r1) := ReadU32(b).value;
      U32Accepts(r1);
      var (version, r2) := ReadU32(r1).value;
      if version == 1 { OldReads(r2); } else { NewReads(r2); }
    }
  }

  lemma OldRoundTrip(r: Rec)
    requires OldForm(r)
    ensures ParseBody(OldBody(r)) == Some(r)
  {
    hide Lawful, RecC, SeenOneC, U32, ReadU32, WellFormed;
    SeenOneLawful();
    RecLawful(SeenOneC(), 3);
    OldOk(r);
    WholeReads(RecC(SeenOneC(), 3), r);
    var tail := RecC(SeenOneC(), 3).enc(r);
    U32Reads(MAGIC, U32(1) + tail);
    U32Reads(1, tail);
  }

  lemma OldReads(b: Bytes)
    ensures Whole(RecC(SeenOneC(), 3), b).Some? ==> var r := Whole(RecC(SeenOneC(), 3), b).value; OldForm(r) && b == RecC(SeenOneC(), 3).enc(r)
  {
    hide Lawful, RecC, SeenOneC, OldForm;
    if Whole(RecC(SeenOneC(), 3), b).Some? {
      SeenOneLawful();
      RecLawful(SeenOneC(), 3);
      WholeAccepts(RecC(SeenOneC(), 3), b);
      OldOk(Whole(RecC(SeenOneC(), 3), b).value);
    }
  }

  lemma NewReads(b: Bytes)
    ensures Whole(RecC(SeenC(), 10), b).Some? ==> var r := Whole(RecC(SeenC(), 10), b).value; WellFormed(r) && b == RecC(SeenC(), 10).enc(r)
  {
    hide Lawful, RecC, SeenC, WellFormed;
    if Whole(RecC(SeenC(), 10), b).Some? {
      SeenLawful();
      RecLawful(SeenC(), 10);
      WholeAccepts(RecC(SeenC(), 10), b);
      OkWellFormed(SeenC(), 10, Whole(RecC(SeenC(), 10), b).value);
    }
  }

  const LIMITS: seq<int> := [32768, 5125, 32, 1024, 8232, 512, 44, 4096, 8448, 2048]

  // IDs and hashes of their sizes, a payload no longer than its type may be, at most fifteen earlier records pointed to,
  // none twice, and none at all by a record that stands outside the transcript.
  predicate Within(r: Rec) {
    && |r.conversation| == 16 && |r.message| == 16 && |r.sender| == 32 && |r.recipients| == 32 && (|r.ownPrev| == 0 || |r.ownPrev| == 32)
    && 1 <= r.kind <= 10 && |r.payload| <= LIMITS[r.kind - 1] && (r.kind == 3 ==> |r.payload| == 32)
    && |r.seen| <= 15 && (forall i, j :: 0 <= i < j < |r.seen| ==> r.seen[i] != r.seen[j])
    && (4 <= r.kind <= 9 ==> r.seen == [] && r.ownPrev == [])
  }

  lemma FormedWithin(r: Rec)
    requires WellFormed(r)
    ensures Within(r)
  {
  }

  // That much can be relied on of a record that parses.
  lemma ParsedWithin(raw: Bytes)
    requires Parse(raw).Some?
    ensures Within(Parse(raw).value.rec)
  {
    hide *;
    ParsedStrict(raw);
    FormedWithin(Parse(raw).value.rec);
  }

  // ---- What a signature says ----

  // The signed bytes determine the body.
  lemma SigningInputInjective(body: Bytes, body': Bytes)
    requires SigningInput(body) == SigningInput(body')
    ensures body == body'
  {
    hide Blob;
    SigningInputs.LabelsSeparate("pq-suite v3 message", body, "pq-suite v3 message", body');
  }

  // What is signed for a record is never what is signed or hashed for a relay or an archive.
  lemma NoOtherPurpose(body: Bytes, i: SigningInputs.Input)
    ensures SigningInput(body) != SigningInputs.Encode(i)
  {
    var name, other := "pq-suite v3 message", SigningInputs.Label(i);
    hide Blob, SigningInputs.Fields;
    assert |Ascii(name)| == |name| == 19 && |Ascii(other)| == |other| > 19;
    if SigningInput(body) == SigningInputs.Encode(i) { SigningInputs.LabelsSeparate(name, body, other, SigningInputs.Fields(i)); }
  }

  // A signature is good for one input under one key.
  ghost predicate OneInput(crypto: Crypto) {
    forall m, m', signature, key :: crypto.verify(m, signature, key) && crypto.verify(m', signature, key) ==> m == m'
  }

  // So two records with one signature that verify under one key are the same record, byte for byte.
  lemma OneRecord(crypto: Crypto, key: Bytes, raw: Bytes, raw': Bytes)
    requires OneInput(crypto) && Parse(raw).Some? && Parse(raw').Some?
    requires Verifies(crypto, Parse(raw).value, key) && Verifies(crypto, Parse(raw').value, key)
    requires Parse(raw).value.signature == Parse(raw').value.signature
    ensures Parse(raw) == Parse(raw') && raw == raw'
  {
    hide SigningInput, ParseBody, RawC, Blob, WellFormed, ReadU32, Body;
    var s, t := Parse(raw).value, Parse(raw').value;
    SigningInputInjective(s.body, t.body);
    ParsedStrict(raw);
    ParsedStrict(raw');
  }

  // Only what the key's holder signed verifies: records, and inputs for relays and archives.
  ghost predicate Unforgeable(crypto: Crypto, key: Bytes, records: iset<Rec>, inputs: iset<SigningInputs.Input>) {
    forall m, signature :: crypto.verify(m, signature, key) ==>
      (exists r :: r in records && WellFormed(r) && m == SigningInput(Body(r))) || (exists i :: i in inputs && m == SigningInputs.Encode(i))
  }

  // Then whatever parses and verifies is a record the holder signed, with exactly these contents, under the fingerprint
  // of their key; nothing they signed for a relay or an archive passes for one.
  lemma OnlySigned(crypto: Crypto, key: Bytes, records: iset<Rec>, inputs: iset<SigningInputs.Input>, raw: Bytes)
    requires Unforgeable(crypto, key, records, inputs) && Parse(raw).Some? && Verifies(crypto, Parse(raw).value, key)
    ensures var s := Parse(raw).value;
            s.rec in records && s.body == Body(s.rec) && s.rec.sender == crypto.fingerprint(key)
  {
    hide SigningInput, RawC, Blob, WellFormed, ReadU32, Body, SigningInputs.Encode, ParseBody;
    var s := Parse(raw).value;
    forall i: SigningInputs.Input ensures SigningInput(s.body) != SigningInputs.Encode(i) { NoOtherPurpose(s.body, i); }
    var r :| r in records && WellFormed(r) && SigningInput(s.body) == SigningInput(Body(r));
    SigningInputInjective(s.body, Body(r));
    BodyRoundTrip(r);
  }
}
