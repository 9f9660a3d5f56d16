/**
 The sealed envelope (client/envelope.cpp): what is inside it, how that is padded to one of four sizes, and the header
 that names the keys. Key encapsulation, key agreement, key derivation and authenticated encryption are parameters.
 */
module Envelope {
  import opened Wire
  import opened Buffers

  const MAX_BUNDLE := 16 * 1024
  const MAX_RECORDS := 16
  const MAX_INTRODUCED := 15
  const MAX_GRANTS := 4
  const MAX_RECORD := 64 * 1024
  const MAX_ENVELOPE := 64 * 1024 + 4096
  const NONCE := 12
  const PREKEY_ID := 16
  const X25519 := 32
  const MAX_KEM := 4096

  datatype Grant = Grant(fileId: Bytes, key: Bytes, token: Bytes)
  datatype Inner = Inner(bundle: Bytes, records: seq<Bytes>, introduced: seq<Bytes>, grants: seq<Grant>)

  // ---- The formats ----

  function GrantC(): Codec<Grant> {
    As(Then(Exact(16, 16), Then(Exact(32, 32), Exact(32, 32))),
       (x: (Bytes, (Bytes, Bytes))) => Grant(x.0, x.1.0, x.1.1), (g: Grant) => (g.fileId, (g.key, g.token)))
  }

  predicate DistinctFiles(grants: seq<Grant>) {
    forall i, j :: 0 <= i < j < |grants| ==> grants[i].fileId != grants[j].fileId
  }

  function GrantsC(): Codec<seq<Grant>> {
    Where(ListC(GrantC(), 1, MAX_GRANTS), DistinctFiles)
  }

  function BundlesC(): Codec<seq<Bytes>> {
    ListC(BlobC(MAX_BUNDLE), 0, MAX_INTRODUCED)
  }

  function RecordsC(): Codec<seq<Bytes>> {
    ListC(BlobC(MAX_RECORD), 0, MAX_RECORDS)
  }

  // What follows the version number, in each version.
  function Body1(): Codec<Inner> {
    As(Then(BlobC(MAX_BUNDLE), Then(NothingC([]), Then(NothingC([]), RecordsC()))), MakeInner, SplitInner)
  }

  function Body2(): Codec<Inner> {
    As(Then(BlobC(MAX_BUNDLE), Then(BundlesC(), Then(NothingC([]), RecordsC()))), MakeInner, SplitInner)
  }

  function Body3(): Codec<Inner> {
    As(Then(BlobC(MAX_BUNDLE), Then(BundlesC(), Then(GrantsC(), RecordsC()))), MakeInner, SplitInner)
  }

  // A field this version does not have.
  function NothingC<T(==)>(none: T): Codec<T> {
    Codec((x: T) => x == none, (x: T) => [], (b: Bytes) => Some((none, b)))
  }

  type Parts = (Bytes, (seq<Bytes>, (seq<Grant>, seq<Bytes>)))

  function MakeInner(p: Parts): Inner { Inner(p.0, p.1.1.1, p.1.0, p.1.1.0) }

  function SplitInner(i: Inner): Parts { (i.bundle, (i.introduced, (i.grants, i.records))) }

  lemma NothingLawful<T(!new)>(none: T)
    ensures Lawful(NothingC(none))
  {
    forall b: Bytes ensures b == [] + b {}
  }

  lemma GrantsLawful()
    ensures Lawful(GrantsC())
  {
    hide Lawful, Exact, ListC, Where;
    ExactLawful(16, 16);
    ExactLawful(32, 32);
    ThenLawful(Exact(32, 32), Exact(32, 32));
    ThenLawful(Exact(16, 16), Then(Exact(32, 32), Exact(32, 32)));
    AsLawful(Then(Exact(16, 16), Then(Exact(32, 32), Exact(32, 32))),
             (x: (Bytes, (Bytes, Bytes))) => Grant(x.0, x.1.0, x.1.1), (g: Grant) => (g.fileId, (g.key, g.token)));
    ListLawful(GrantC(), 1, MAX_GRANTS);
    WhereLawful(ListC(GrantC(), 1, MAX_GRANTS), DistinctFiles);
  }

  lemma PartsLawful(introduced: Codec<seq<Bytes>>, grants: Codec<seq<Grant>>)
    requires Lawful(introduced) && Lawful(grants)
    ensures Lawful(As(Then(BlobC(MAX_BUNDLE), Then(introduced, Then(grants, RecordsC()))), MakeInner, SplitInner))
  {
    hide Lawful, BlobC, ListC, Then;
    BlobLawful(MAX_BUNDLE);
    BlobLawful(MAX_RECORD);
    ListLawful(BlobC(MAX_RECORD), 0, MAX_RECORDS);
    ThenLawful(grants, RecordsC());
    ThenLawful(introduced, Then(grants, RecordsC()));
    ThenLawful(BlobC(MAX_BUNDLE), Then(introduced, Then(grants, RecordsC())));
    AsLawful(Then(BlobC(MAX_BUNDLE), Then(introduced, Then(grants, RecordsC()))), MakeInner, SplitInner);
  }

  lemma BodiesLawful()
    ensures Lawful(Body1()) && Lawful(Body2()) && Lawful(Body3())
  {
    hide Lawful, BlobC, ListC, As, Then, GrantsC, NothingC;
    NothingLawful<seq<Bytes>>([]);
    NothingLawful<seq<Grant>>([]);
    BlobLawful(MAX_BUNDLE);
    ListLawful(BlobC(MAX_BUNDLE), 0, MAX_INTRODUCED);
    GrantsLawful();
    PartsLawful(NothingC([]), NothingC([]));
    PartsLawful(BundlesC(), NothingC([]));
    PartsLawful(BundlesC(), GrantsC());
  }

  // ---- The inner content ----

  // What encode_inner accepts.
  predicate Encodable(i: Inner) {
    && |i.bundle| <= MAX_BUNDLE && |i.introduced| <= MAX_INTRODUCED && (forall k :: 0 <= k < |i.introduced| ==> |i.introduced[k]| <= MAX_BUNDLE)
    && |i.records| <= MAX_RECORDS && |i.grants| <= MAX_GRANTS
    && (forall k :: 0 <= k < |i.grants| ==> |i.grants[k].fileId| == 16 && |i.grants[k].key| == 32 && |i.grants[k].token| == 32)
    && DistinctFiles(i.grants)
  }

  predicate ShortRecords(i: Inner) {
    forall k :: 0 <= k < |i.records| ==> |i.records[k]| <= MAX_RECORD
  }

  function InnerBytes(i: Inner): Bytes {
    if i.grants == [] then U32(2) + Body2().enc(i) else U32(3) + Body3().enc(i)
  }

  function EncodeInner(i: Inner): Option<Bytes> {
    if Encodable(i) then Some(InnerBytes(i)) else None
  }

  function DecodeInner(b: Bytes): Option<Inner> {
    match ReadU32(b)
    case None => None
    case Some((version, rest)) =>
      if version == 1 then Whole(Body1(), rest)
      else if version == 2 then Whole(Body2(), rest)
      else if version == 3 then Whole(Body3(), rest)
      else None
  }

  lemma BlobListOk(xs: seq<Bytes>, max: nat, n: nat)
    requires max < TWO32 && n < TWO32
    ensures ListC(BlobC(max), 0, n).ok(xs) <==> |xs| <= n && forall k :: 0 <= k < |xs| ==> |xs[k]| <= max
  {
    forall k | 0 <= k < |xs| ensures BlobC(max).ok(xs[k]) <==> |xs[k]| <= max {}
  }

  lemma GrantsOk(gs: seq<Grant>)
    ensures GrantsC().ok(gs) <==>
              && 1 <= |gs| <= MAX_GRANTS && DistinctFiles(gs)
              && forall k :: 0 <= k < |gs| ==> |gs[k].fileId| == 16 && |gs[k].key| == 32 && |gs[k].token| == 32
  {
    forall k | 0 <= k < |gs| ensures GrantC().ok(gs[k]) <==> |gs[k].fileId| == 16 && |gs[k].key| == 32 && |gs[k].token| == 32 {}
  }

  lemma PartsOk(bundle: Codec<Bytes>, introduced: Codec<seq<Bytes>>, grants: Codec<seq<Grant>>, records: Codec<seq<Bytes>>, i: Inner)
    ensures As(Then(bundle, Then(introduced, Then(grants, records))), MakeInner, SplitInner).ok(i) <==>
              bundle.ok(i.bundle) && introduced.ok(i.introduced) && grants.ok(i.grants) && records.ok(i.records)
  {
    var c := Then(bundle, Then(introduced, Then(grants, records)));
    assert As(c, MakeInner, SplitInner).ok(i) <==> c.ok(SplitInner(i));
    assert Then(grants, records).ok((i.grants, i.records)) <==> grants.ok(i.grants) && records.ok(i.records);
    assert Then(introduced, Then(grants, records)).ok((i.introduced, (i.grants, i.records))) <==>
      introduced.ok(i.introduced) && Then(grants, records).ok((i.grants, i.records));
  }

  lemma BodyOk(i: Inner)
    ensures i.grants == [] && Encodable(i) && ShortRecords(i) <==> Body2().ok(i)
    ensures i.grants != [] && Encodable(i) && ShortRecords(i) <==> Body3().ok(i)
  {
    hide ListC, GrantsC, As, Then, MakeInner, SplitInner;
    BlobListOk(i.introduced, MAX_BUNDLE, MAX_INTRODUCED);
    BlobListOk(i.records, MAX_RECORD, MAX_RECORDS);
    GrantsOk(i.grants);
    PartsOk(BlobC(MAX_BUNDLE), BundlesC(), NothingC([]), RecordsC(), i);
    PartsOk(BlobC(MAX_BUNDLE), BundlesC(), GrantsC(), RecordsC(), i);
  }

  lemma InnerRoundTrip(i: Inner)
    requires Encodable(i) && ShortRecords(i)
    ensures DecodeInner(InnerBytes(i)) == Some(i)
  {
    hide Lawful, Body1, Body2, Body3, Encodable, U32, ReadU32;
    BodiesLawful();
    BodyOk(i);
    if i.grants == [] {
      WholeReads(Body2(), i);
      U32Reads(2, Body2().enc(i));
    } else {
      WholeReads(Body3(), i);
      U32Reads(3, Body3().enc(i));
    }
  }

  // Whatever is accepted as version 2 or 3 is what would be written for it; the one form of version 1 is only read.
  lemma InnerStrict(b: Bytes)
    requires DecodeInner(b).Some?
    ensures var i := DecodeInner(b).value;
            && Encodable(i) && ShortRecords(i)
            && (ReadU32(b).value.0 != 1 ==> EncodeInner(i) == Some(b))
            && (ReadU32(b).value.0 == 1 ==> EncodeInner(i) != Some(b))
  {
    hide Lawful, Body1, Body2, Body3, Encodable, U32, ReadU32;
    BodiesLawful();
    U32Accepts(b);
    var (version, rest) := ReadU32(b).value;
    var i := DecodeInner(b).value;
    BodyOk(i);
    if version == 1 {
      WholeAccepts(Body1(), rest);
      Body1Ok(i);
      Versions(1, rest, if i.grants == [] then 2 else 3, if i.grants == [] then Body2().enc(i) else Body3().enc(i));
    } else if version == 2 {
      WholeAccepts(Body2(), rest);
    } else {
      WholeAccepts(Body3(), rest);
    }
  }

  lemma Body1Ok(i: Inner)
    requires Body1().ok(i)
    ensures Body2().ok(i)
  {
  }

  lemma Versions(v: nat, a: Bytes, w: nat, b: Bytes)
    requires v != w && v < TWO32 && w < TWO32
    ensures U32(v) + a != U32(w) + b
  {
    hide U32, ReadU32;
    U32Reads(v, a);
    U32Reads(w, b);
  }

  // ---- Padding ----

  // The smallest of the four sizes that holds n bytes.
  function Bucket(n: int): Option<nat> {
    if n <= 1024 then Some(1024) else if n <= 4096 then Some(4096) else if n <= 16384 then Some(16384) else if n <= 65536 then Some(65536) else None
  }

  function Zeros(n: nat): Bytes {
    seq(n, i => 0)
  }

  function Pad(e: Bytes): Option<Bytes> {
    match Bucket(4 + |e|)
    case None => None
    case Some(size) => if size < 4 + |e| then None else Some(U32(|e|) + e + Zeros(size - 4 - |e|))
  }

  function Unpad(p: Bytes): Option<Bytes> {
    if |p| !in {1024, 4096, 16384, 65536} then None
    else
      match ReadU32(p)
      case None => None
      case Some((n, rest)) =>
        if n < 0 || n > |rest| || exists k :: n <= k < |rest| && rest[k] != 0 then None else Some(rest[..n])
  }

  lemma PadReads(e: Bytes)
    requires Pad(e).Some?
    ensures Unpad(Pad(e).value) == Some(e) && |e| <= 65532
  {
    hide U32, ReadU32;
    var size := Bucket(4 + |e|).value;
    var rest := e + Zeros(size - 4 - |e|);
    assert Pad(e).value == U32(|e|) + rest;
    U32Reads(|e|, rest);
    assert rest[..|e|] == e;
  }

  predicate IsSize(n: int) {
    n == 1024 || n == 4096 || n == 16384 || n == 65536
  }

  // The padded length is the smallest of the four that holds the content and its length, and there is none only if it is
  // too long for the largest.
  lemma PadSmallest(e: Bytes)
    ensures Pad(e).None? <==> 4 + |e| > 65536
    ensures Pad(e).Some? ==> IsSize(|Pad(e).value|) && forall n :: IsSize(n) && 4 + |e| <= n ==> |Pad(e).value| <= n
  {
    hide U32;
  }

  // What comes out of a padded plaintext is in it, after its length, with nothing but zeros after.
  lemma UnpadStrict(p: Bytes)
    requires Unpad(p).Some?
    ensures var e := Unpad(p).value; 4 + |e| <= |p| && p == U32(|e|) + e + Zeros(|p| - 4 - |e|) && Pad(e).Some?
  {
    hide ReadU32, U32;
    U32Accepts(p);
    var (n, rest) := ReadU32(p).value;
    var e := Unpad(p).value;
    assert rest == e + Zeros(|rest| - n);
  }

  // ---- Sealing and opening ----

  datatype Crypto = Crypto(kemSize: nat, derive: (Bytes, Bytes) -> Bytes, derive2: (Bytes, Bytes, Bytes, Bytes) -> Bytes,
                           encrypt: (Bytes, Bytes, Bytes, Bytes) -> Bytes, decrypt: (Bytes, Bytes, Bytes, Bytes) -> Option<Bytes>)

  // Decryption undoes encryption under the same key, nonce and associated data.
  ghost predicate Sound(crypto: Crypto) {
    && crypto.kemSize <= MAX_KEM
    && forall key, nonce, plain, aad :: crypto.decrypt(key, nonce, crypto.encrypt(key, nonce, plain, aad), aad) == Some(plain)
  }

  // A fresh encapsulation: what is sent, and the secret it stands for.
  datatype Sent = Sent(ciphertext: Bytes, secret: Bytes)

  // What sealing to a prekey adds: its ID, an encapsulation to it, a one-time public key, and the agreed secret.
  datatype ToPrekey = ToPrekey(id: Bytes, kem: Sent, ephemeral: Bytes, agreed: Bytes)

  // The private half of a prekey, as what it does.
  datatype Prekey = Prekey(decapsulate: Bytes -> Bytes, agree: Bytes -> Bytes)

  function VersionC(v: int): Codec<int> {
    Where(U32C(), (x: int) => x == v)
  }

  type Header1 = (int, (Bytes, Bytes))
  type Keys2 = (Bytes, (Bytes, (Bytes, (Bytes, Bytes))))
  type Header2 = (int, Keys2)

  function Header1C(kemSize: nat): Codec<Header1> {
    Then(VersionC(1), Then(Exact(MAX_KEM, kemSize), Exact(NONCE, NONCE)))
  }

  function Header2C(kemSize: nat): Codec<Header2> {
    Then(VersionC(2), Keys2C(kemSize))
  }

  function Keys2C(kemSize: nat): Codec<Keys2> {
    Then(Exact(MAX_KEM, kemSize), Then(Exact(PREKEY_ID, PREKEY_ID), Then(Exact(MAX_KEM, kemSize), Then(Exact(X25519, X25519), Exact(NONCE, NONCE)))))
  }

  lemma HeadersLawful(kemSize: nat)
    ensures Lawful(Header1C(kemSize)) && Lawful(Header2C(kemSize))
  {
    hide Lawful, Exact, Then, Where;
    U32Lawful();
    WhereLawful(U32C(), (x: int) => x == 1);
    WhereLawful(U32C(), (x: int) => x == 2);
    ExactLawful(MAX_KEM, kemSize);
    ExactLawful(NONCE, NONCE);
    ExactLawful(PREKEY_ID, PREKEY_ID);
    ExactLawful(X25519, X25519);
    var kem, id, x, nonce := Exact(MAX_KEM, kemSize), Exact(PREKEY_ID, PREKEY_ID), Exact(X25519, X25519), Exact(NONCE, NONCE);
    ThenLawful(kem, nonce);
    ThenLawful(VersionC(1), Then(kem, nonce));
    ThenLawful(x, nonce);
    ThenLawful(kem, Then(x, nonce));
    ThenLawful(id, Then(kem, Then(x, nonce)));
    ThenLawful(kem, Then(id, Then(kem, Then(x, nonce))));
    ThenLawful(VersionC(2), Then(kem, Then(id, Then(kem, Then(x, nonce)))));
  }

  function AadFor(header: Bytes): Bytes {
    Blob(Ascii("pq-suite v3 envelope")) + header
  }

  // seal_envelope, given the encapsulations and the nonce it draws.
  function Seal(crypto: Crypto, i: Inner, kem: Sent, nonce: Bytes, prekey: Option<ToPrekey>): Option<Bytes> {
    if !Encodable(i) || Pad(InnerBytes(i)).None? || (prekey.Some? && |prekey.value.id| != PREKEY_ID) then None
    else
      var plain := Pad(InnerBytes(i)).value;
      var header := HeaderBytes(crypto, kem, nonce, prekey);
      var key := if prekey.None? then crypto.derive(kem.secret, header)
                 else crypto.derive2(kem.secret, prekey.value.kem.secret, prekey.value.agreed, header);
      var envelope := header + Blob(crypto.encrypt(key, nonce, plain, AadFor(header)));
      if |envelope| > MAX_ENVELOPE then None else Some(envelope)
  }

  function HeaderBytes(crypto: Crypto, kem: Sent, nonce: Bytes, prekey: Option<ToPrekey>): Bytes {
    match prekey
    case None => Header1C(crypto.kemSize).enc((1, (kem.ciphertext, nonce)))
    case Some(p) => Header2C(crypto.kemSize).enc((2, (kem.ciphertext, (p.id, (p.kem.ciphertext, (p.ephemeral, nonce))))))
  }

  function Finish(crypto: Crypto, key: Bytes, nonce: Bytes, header: Bytes, rest: Bytes): Option<Inner> {
    match Whole(BlobC(MAX_ENVELOPE), rest)
    case None => None
    case Some(ciphertext) =>
      match crypto.decrypt(key, nonce, ciphertext, AadFor(header))
      case None => None
      case Some(plain) =>
        match Unpad(plain)
        case None => None
        case Some(e) => DecodeInner(e)
  }

  // open_envelope with the recipient's long-term key and prekeys.
  function Open(crypto: Crypto, envelope: Bytes, decapsulate: Bytes -> Bytes, lookup: Bytes -> Option<Prekey>): Option<Inner> {
    match Header1C(crypto.kemSize).dec(envelope)
    case Some((h, rest)) =>
      var header := Before(envelope, rest);
      Finish(crypto, crypto.derive(decapsulate(h.1.0), header), h.1.1, header, rest)
    case None =>
      match Header2C(crypto.kemSize).dec(envelope)
      case None => None
      case Some((h, rest)) =>
        var (kem, (id, (kem2, (ephemeral, nonce)))) := h.1;
        var header := Before(envelope, rest);
        match lookup(id)
        case None => None
        case Some(p) => Finish(crypto, crypto.derive2(decapsulate(kem), p.decapsulate(kem2), p.agree(ephemeral), header), nonce, header, rest)
  }

  // The part of the envelope read so far.
  function Before(envelope: Bytes, rest: Bytes): Bytes {
    if |rest| <= |envelope| then envelope[..|envelope| - |rest|] else []
  }

  lemma BeforeIs(header: Bytes, rest: Bytes)
    ensures Before(header + rest, rest) == header
  {
  }

  lemma FinishOpens(crypto: Crypto, i: Inner, key: Bytes, nonce: Bytes, header: Bytes)
    requires Sound(crypto) && Encodable(i) && Pad(InnerBytes(i)).Some?
    requires |Blob(crypto.encrypt(key, nonce, Pad(InnerBytes(i)).value, AadFor(header)))| <= MAX_ENVELOPE
    ensures Finish(crypto, key, nonce, header, Blob(crypto.encrypt(key, nonce, Pad(InnerBytes(i)).value, AadFor(header)))) == Some(i)
  {
    hide Encodable, InnerBytes, Pad, Unpad, AadFor, DecodeInner, Lawful, BlobC;
    var e := InnerBytes(i);
    var ciphertext := crypto.encrypt(key, nonce, Pad(e).value, AadFor(header));
    PadReads(e);
    RecordsFit(i);
    InnerRoundTrip(i);
    BlobLawful(MAX_ENVELOPE);
    BlobWhole(ciphertext);
  }

  lemma BlobWhole(b: Bytes)
    requires |Blob(b)| <= MAX_ENVELOPE
    ensures Whole(BlobC(MAX_ENVELOPE), Blob(b)) == Some(b)
  {
    hide Lawful;
    BlobLawful(MAX_ENVELOPE);
    assert BlobC(MAX_ENVELOPE).ok(b) && BlobC(MAX_ENVELOPE).enc(b) == Blob(b);
    WholeReads(BlobC(MAX_ENVELOPE), b);
  }

  // A record that fits in the largest envelope is short enough to be read.
  lemma RecordsFit(i: Inner)
    requires Encodable(i) && |InnerBytes(i)| <= 65532
    ensures ShortRecords(i)
  {
    hide Encodable;
    forall k | 0 <= k < |i.records| ensures |i.records[k]| <= MAX_RECORD {
      RecordsLong(i.records, k);
      BodyLong(i);
    }
  }

  lemma {:induction false} RecordsLong(records: seq<Bytes>, k: nat)
    requires k < |records|
    ensures |EncAll(BlobC(MAX_RECORD), records)| >= |records[k]|
    decreases |records|
  {
    if k > 0 { RecordsLong(records[1..], k - 1); }
  }

  lemma BodyLong(i: Inner)
    ensures |InnerBytes(i)| >= |EncAll(BlobC(MAX_RECORD), i.records)|
  {
    hide EncAll;
    PartsLong(BlobC(MAX_BUNDLE), BundlesC(), NothingC([]), i);
    PartsLong(BlobC(MAX_BUNDLE), BundlesC(), GrantsC(), i);
  }

  lemma PartsLong(bundle: Codec<Bytes>, introduced: Codec<seq<Bytes>>, grants: Codec<seq<Grant>>, i: Inner)
    ensures |As(Then(bundle, Then(introduced, Then(grants, RecordsC()))), MakeInner, SplitInner).enc(i)| >= |EncAll(BlobC(MAX_RECORD), i.records)|
  {
    hide EncAll;
    var c3 := Then(grants, RecordsC());
    var c2 := Then(introduced, c3);
    var c1 := Then(bundle, c2);
    assert As(c1, MakeInner, SplitInner).enc(i) == c1.enc(SplitInner(i));
    assert c3.enc((i.grants, i.records)) == grants.enc(i.grants) + RecordsC().enc(i.records);
    assert c2.enc((i.introduced, (i.grants, i.records))) == introduced.enc(i.introduced) + c3.enc((i.grants, i.records));
  }

  // The recipient's secrets are the ones the sender sealed to.
  predicate Match(crypto: Crypto, kem: Sent, nonce: Bytes, prekey: Option<ToPrekey>, decapsulate: Bytes -> Bytes, lookup: Bytes -> Option<Prekey>) {
    && |kem.ciphertext| == crypto.kemSize && |nonce| == NONCE && decapsulate(kem.ciphertext) == kem.secret
    && (prekey.Some? ==>
          && |prekey.value.id| == PREKEY_ID && |prekey.value.kem.ciphertext| == crypto.kemSize && |prekey.value.ephemeral| == X25519
          && lookup(prekey.value.id).Some?
          && lookup(prekey.value.id).value.decapsulate(prekey.value.kem.ciphertext) == prekey.value.kem.secret
          && lookup(prekey.value.id).value.agree(prekey.value.ephemeral) == prekey.value.agreed)
  }

  lemma Header1Reads(crypto: Crypto, kem: Bytes, nonce: Bytes, rest: Bytes)
    requires crypto.kemSize <= MAX_KEM && |kem| == crypto.kemSize && |nonce| == NONCE
    ensures var c := Header1C(crypto.kemSize); c.dec(c.enc((1, (kem, nonce))) + rest) == Some(((1, (kem, nonce)), rest))
  {
    HeadersLawful(crypto.kemSize);
    Header1Ok(crypto.kemSize, kem, nonce);
    hide Header1C;
  }

  lemma Header1Ok(kemSize: nat, kem: Bytes, nonce: Bytes)
    requires kemSize <= MAX_KEM && |kem| == kemSize && |nonce| == NONCE
    ensures Header1C(kemSize).ok((1, (kem, nonce)))
  {
  }

  lemma Header2Ok(kemSize: nat, h: Header2)
    requires kemSize <= MAX_KEM && h.0 == 2 && |h.1.0| == kemSize && |h.1.1.0| == PREKEY_ID && |h.1.1.1.0| == kemSize
    requires |h.1.1.1.1.0| == X25519 && |h.1.1.1.1.1| == NONCE
    ensures Header2C(kemSize).ok(h)
  {
    var kem, id, x, nonce := Exact(MAX_KEM, kemSize), Exact(PREKEY_ID, PREKEY_ID), Exact(X25519, X25519), Exact(NONCE, NONCE);
    assert Then(x, nonce).ok(h.1.1.1.1);
    assert Then(kem, Then(x, nonce)).ok(h.1.1.1);
    assert Then(id, Then(kem, Then(x, nonce))).ok(h.1.1);
    assert Then(kem, Then(id, Then(kem, Then(x, nonce)))).ok(h.1);
  }

  lemma VersionFirst<T(!new)>(v: nat, c: Codec<T>, x: T, rest: Bytes)
    requires v < TWO32
    ensures ReadU32(Then(VersionC(v), c).enc((v, x)) + rest) == Some((v, c.enc(x) + rest))
  {
    hide ReadU32, U32;
    assert Then(VersionC(v), c).enc((v, x)) == U32(v) + c.enc(x);
    assert U32(v) + c.enc(x) + rest == U32(v) + (c.enc(x) + rest);
    U32Reads(v, c.enc(x) + rest);
  }

  lemma Header2Reads(crypto: Crypto, h: Header2, rest: Bytes)
    requires crypto.kemSize <= MAX_KEM && Header2C(crypto.kemSize).ok(h) && h.0 == 2
    ensures Header2C(crypto.kemSize).dec(Header2C(crypto.kemSize).enc(h) + rest) == Some((h, rest))
    ensures Header1C(crypto.kemSize).dec(Header2C(crypto.kemSize).enc(h) + rest).None?
  {
    hide Keys2C, ReadU32, Lawful, Then, Where, Header1C;
    HeadersLawful(crypto.kemSize);
    VersionFirst(2, Keys2C(crypto.kemSize), h.1, rest);
    WrongVersion(crypto.kemSize, Header2C(crypto.kemSize).enc(h) + rest);
    LawReads(Header2C(crypto.kemSize), h, rest);
  }

  lemma LawReads<T(!new)>(c: Codec<T>, x: T, rest: Bytes)
    requires Lawful(c) && c.ok(x)
    ensures c.dec(c.enc(x) + rest) == Some((x, rest))
  {
  }

  lemma WrongVersion(kemSize: nat, b: Bytes)
    requires ReadU32(b).Some? && ReadU32(b).value.0 != 1
    ensures Header1C(kemSize).dec(b).None?
  {
    hide Exact, ReadU32;
    assert VersionC(1).dec(b).None?;
  }

  // What can be sealed: contents within the limits that fit the largest padded size, to a prekey with an ID of the right
  // length if to one, as long as the whole is not too long for the relay.
  lemma SealsExactly(crypto: Crypto, i: Inner, kem: Sent, nonce: Bytes, prekey: Option<ToPrekey>)
    ensures Seal(crypto, i, kem, nonce, prekey).Some? <==>
              && Encodable(i) && |InnerBytes(i)| <= 65532 && (prekey.Some? ==> |prekey.value.id| == PREKEY_ID)
              && SealedLength(crypto, i, kem, nonce, prekey) <= MAX_ENVELOPE
  {
    hide Encodable, InnerBytes, Pad, HeaderBytes, Blob, AadFor;
    PadSmallest(InnerBytes(i));
  }

  function SealedLength(crypto: Crypto, i: Inner, kem: Sent, nonce: Bytes, prekey: Option<ToPrekey>): nat {
    var header, plain := HeaderBytes(crypto, kem, nonce, prekey), Pad(InnerBytes(i));
    var key := if prekey.None? then crypto.derive(kem.secret, header)
               else crypto.derive2(kem.secret, prekey.value.kem.secret, prekey.value.agreed, header);
    |header| + |Blob(crypto.encrypt(key, nonce, if plain.Some? then plain.value else [], AadFor(header)))|
  }

  // Whatever can be sealed is what the recipient gets, with a prekey or without.
  lemma SealedOpens(crypto: Crypto, i: Inner, kem: Sent, nonce: Bytes, prekey: Option<ToPrekey>, decapsulate: Bytes -> Bytes, lookup: Bytes -> Option<Prekey>)
    requires Sound(crypto) && Match(crypto, kem, nonce, prekey, decapsulate, lookup) && Seal(crypto, i, kem, nonce, prekey).Some?
    ensures Open(crypto, Seal(crypto, i, kem, nonce, prekey).value, decapsulate, lookup) == Some(i)
  {
    hide Encodable, InnerBytes, Pad, AadFor, Header1C, Header2C, Finish, Before, Sound, Blob;
    var header := HeaderBytes(crypto, kem, nonce, prekey);
    var key := if prekey.None? then crypto.derive(kem.secret, header)
               else crypto.derive2(kem.secret, prekey.value.kem.secret, prekey.value.agreed, header);
    var rest := Blob(crypto.encrypt(key, nonce, Pad(InnerBytes(i)).value, AadFor(header)));
    FinishOpens(crypto, i, key, nonce, header);
    BeforeIs(header, rest);
    KemBound(crypto);
    match prekey
    case None => Header1Reads(crypto, kem.ciphertext, nonce, rest);
    case Some(p) =>
      var h: Header2 := (2, (kem.ciphertext, (p.id, (p.kem.ciphertext, (p.ephemeral, nonce)))));
      Header2Ok(crypto.kemSize, h);
      Header2Reads(crypto, h, rest);
  }

  lemma KemBound(crypto: Crypto)
    requires Sound(crypto)
    ensures crypto.kemSize <= MAX_KEM
  {
  }

  // ---- Nothing else opens ----

  // One call of seal_envelope.
  datatype Sealing = Sealing(inner: Inner, kem: Sent, nonce: Bytes, prekey: Option<ToPrekey>)

  function Sealed(crypto: Crypto, s: Sealing): Option<Bytes> {
    Seal(crypto, s.inner, s.kem, s.nonce, s.prekey)
  }

  function HeaderOf(crypto: Crypto, s: Sealing): Bytes {
    HeaderBytes(crypto, s.kem, s.nonce, s.prekey)
  }

  // This is what that call encrypted: under its nonce, and with its whole header as associated data.
  predicate Encrypted(crypto: Crypto, s: Sealing, key: Bytes, nonce: Bytes, ciphertext: Bytes, aad: Bytes) {
    && Sealed(crypto, s).Some? && nonce == s.nonce && aad == AadFor(HeaderOf(crypto, s))
    && Pad(InnerBytes(s.inner)).Some? && ciphertext == crypto.encrypt(key, nonce, Pad(InnerBytes(s.inner)).value, aad)
    && Sealed(crypto, s).value == HeaderOf(crypto, s) + Blob(ciphertext)
  }

  // Only what was encrypted decrypts.
  ghost predicate Authentic(crypto: Crypto, made: iset<Sealing>) {
    forall key, nonce, ciphertext, aad :: crypto.decrypt(key, nonce, ciphertext, aad).Some? ==>
      exists s :: s in made && Encrypted(crypto, s, key, nonce, ciphertext, aad)
  }

  lemma SameHeader(header: Bytes, header': Bytes)
    requires AadFor(header) == AadFor(header')
    ensures header == header'
  {
    var start := Blob(Ascii("pq-suite v3 envelope"));
    assert header == (start + header)[|start|..] && header' == (start + header')[|start|..];
  }

  lemma FinishedIsSealed(crypto: Crypto, made: iset<Sealing>, key: Bytes, nonce: Bytes, header: Bytes, rest: Bytes) returns (s: Sealing)
    requires Sound(crypto) && Authentic(crypto, made) && Finish(crypto, key, nonce, header, rest).Some?
    ensures s in made && Sealed(crypto, s) == Some(header + rest) && Finish(crypto, key, nonce, header, rest) == Some(s.inner)
  {
    hide Pad, Unpad, InnerBytes, DecodeInner, AadFor, Blob, BlobC, Lawful, Sound, HeaderBytes;
    BlobLawful(MAX_ENVELOPE);
    WholeAccepts(BlobC(MAX_ENVELOPE), rest);
    var ciphertext := Whole(BlobC(MAX_ENVELOPE), rest).value;
    BlobBytes(ciphertext);
    s :| s in made && Encrypted(crypto, s, key, nonce, ciphertext, AadFor(header));
    SameHeader(header, HeaderOf(crypto, s));
    ShortEnough(crypto, s, ciphertext);
    FinishOpens(crypto, s.inner, key, nonce, header);
  }

  lemma BlobBytes(b: Bytes)
    ensures BlobC(MAX_ENVELOPE).enc(b) == Blob(b)
  {
  }

  lemma ShortEnough(crypto: Crypto, s: Sealing, ciphertext: Bytes)
    requires Sealed(crypto, s).Some? && Sealed(crypto, s).value == HeaderOf(crypto, s) + Blob(ciphertext)
    ensures |Blob(ciphertext)| <= MAX_ENVELOPE && Encodable(s.inner)
  {
    hide Encodable, Pad, InnerBytes, HeaderBytes, Blob, AadFor;
  }

  // Whatever opens, with any keys, is byte for byte what one call sealed, and gives what that call was given: an envelope
  // changed anywhere, in its header, its prekey ID, its nonce or its content, does not open.
  lemma OnlySealedOpens(crypto: Crypto, made: iset<Sealing>, envelope: Bytes, decapsulate: Bytes -> Bytes, lookup: Bytes -> Option<Prekey>) returns (s: Sealing)
    requires Sound(crypto) && Authentic(crypto, made) && Open(crypto, envelope, decapsulate, lookup).Some?
    ensures s in made && Sealed(crypto, s) == Some(envelope) && Open(crypto, envelope, decapsulate, lookup) == Some(s.inner)
  {
    hide Header1C, Header2C, Finish, Lawful, Sound, Authentic, Seal;
    HeadersLawful(crypto.kemSize);
    match Header1C(crypto.kemSize).dec(envelope)
    case Some((h, rest)) =>
      ReadsFront(Header1C(crypto.kemSize), envelope);
      var header := Before(envelope, rest);
      s := FinishedIsSealed(crypto, made, crypto.derive(decapsulate(h.1.0), header), h.1.1, header, rest);
    case None =>
      var (h, rest) := Header2C(crypto.kemSize).dec(envelope).value;
      ReadsFront(Header2C(crypto.kemSize), envelope);
      var (kem, (id, (kem2, (ephemeral, nonce)))) := h.1;
      var header, p := Before(envelope, rest), lookup(id).value;
      s := FinishedIsSealed(crypto, made, crypto.derive2(decapsulate(kem), p.decapsulate(kem2), p.agree(ephemeral), header), nonce, header, rest);
  }

  lemma ReadsFront<T(!new)>(c: Codec<T>, b: Bytes)
    requires Lawful(c) && c.dec(b).Some?
    ensures var rest := c.dec(b).value.1; Before(b, rest) + rest == b
  {
    var (x, rest) := c.dec(b).value;
    assert b == c.enc(x) + rest;
  }

  // envelope_prekey_id: which prekey an envelope names, without opening it.
  function PrekeyId(envelope: Bytes): Option<Bytes> {
    match Then(VersionC(2), Then(BlobC(MAX_KEM), Exact(PREKEY_ID, PREKEY_ID))).dec(envelope)
    case None => None
    case Some((h, rest)) => Some(h.1.1)
  }

  lemma ExactIsBlob(max: int, size: int, b: Bytes)
    ensures Exact(max, size).dec(b).Some? ==> BlobC(max).dec(b) == Exact(max, size).dec(b)
  {
  }

  // It is the prekey that opening the envelope looks up.
  lemma NamedPrekey(crypto: Crypto, envelope: Bytes)
    requires Header2C(crypto.kemSize).dec(envelope).Some?
    ensures PrekeyId(envelope) == Some(Header2C(crypto.kemSize).dec(envelope).value.0.1.1.0)
  {
    hide Then, Exact, BlobC, VersionC;
    var kem, id := Exact(MAX_KEM, crypto.kemSize), Exact(PREKEY_ID, PREKEY_ID);
    var more := Then(kem, Then(Exact(X25519, X25519), Exact(NONCE, NONCE)));
    ThenDec(VersionC(2), Keys2C(crypto.kemSize), envelope);
    var r := VersionC(2).dec(envelope).value.1;
    ThenDec(kem, Then(id, more), r);
    var r2 := kem.dec(r).value.1;
    ThenDec(id, more, r2);
    ExactIsBlob(MAX_KEM, crypto.kemSize, r);
    ThenDec(BlobC(MAX_KEM), id, r);
    ThenDec(VersionC(2), Then(BlobC(MAX_KEM), id), envelope);
  }

  // ---- The loops ----

  function GrantsBytes(grants: seq<Grant>): Bytes {
    if grants == [] then [] else Blob(grants[0].fileId) + Blob(grants[0].key) + Blob(grants[0].token) + GrantsBytes(grants[1..])
  }

  lemma {:induction false} GrantsWritten(grants: seq<Grant>)
    ensures GrantsBytes(grants) == EncAll(GrantC(), grants)
    decreases |grants|
  {
    if grants != [] {
      hide Blob, GrantC;
      GrantsWritten(grants[1..]);
      GrantWritten(grants[0]);
    }
  }

  lemma GrantWritten(g: Grant)
    ensures GrantC().enc(g) == Blob(g.fileId) + Blob(g.key) + Blob(g.token)
  {
    hide Blob;
    assert Then(Exact(32, 32), Exact(32, 32)).enc((g.key, g.token)) == Blob(g.key) + Blob(g.token);
    assert GrantC().enc(g) == Blob(g.fileId) + (Blob(g.key) + Blob(g.token));
  }

  function ListBytes(items: seq<Bytes>): Bytes {
    U32(|items|) + Blobs(items)
  }

  lemma PartsBytes(bundle: Codec<Bytes>, introduced: Codec<seq<Bytes>>, grants: Codec<seq<Grant>>, records: Codec<seq<Bytes>>, i: Inner)
    ensures As(Then(bundle, Then(introduced, Then(grants, records))), MakeInner, SplitInner).enc(i) ==
              bundle.enc(i.bundle) + (introduced.enc(i.introduced) + (grants.enc(i.grants) + records.enc(i.records)))
  {
    var c := Then(bundle, Then(introduced, Then(grants, records)));
    assert As(c, MakeInner, SplitInner).enc(i) == c.enc(SplitInner(i));
    assert Then(grants, records).enc((i.grants, i.records)) == grants.enc(i.grants) + records.enc(i.records);
    assert Then(introduced, Then(grants, records)).enc((i.introduced, (i.grants, i.records))) ==
      introduced.enc(i.introduced) + Then(grants, records).enc((i.grants, i.records));
  }

  // The bytes of an inner content, field by field.
  lemma InnerLayout(i: Inner)
    ensures var grants := if i.grants == [] then [] else U32(|i.grants|) + GrantsBytes(i.grants);
            InnerBytes(i) == U32(if i.grants == [] then 2 else 3) + (Blob(i.bundle) + (ListBytes(i.introduced) + (grants + ListBytes(i.records))))
  {
    BlobsAreEncAll(i.introduced, MAX_BUNDLE);
    BlobsAreEncAll(i.records, MAX_RECORD);
    GrantsWritten(i.grants);
    PartsBytes(BlobC(MAX_BUNDLE), BundlesC(), NothingC([]), RecordsC(), i);
    PartsBytes(BlobC(MAX_BUNDLE), BundlesC(), GrantsC(), RecordsC(), i);
    hide As, Then, Blob, Blobs, EncAll, GrantsBytes;
  }

  lemma OneAfterAnother(a: Bytes, b: Bytes, c: Bytes, d: Bytes, e: Bytes, f: Bytes, g: Bytes)
    ensures a + (b + ((c + d) + (e + (f + g)))) == a + b + c + d + e + f + g
  {
  }

  method WriteInner(i: Inner) returns (b: Option<Bytes>)
    ensures b == EncodeInner(i)
  {
    hide U32, Blob, Blobs, GrantsBytes, InnerBytes, Encodable;
    if !Encodable(i) { return None; }
    var bytes := WriteFields(i);
    return Some(bytes);
  }

  method WriteFields(i: Inner) returns (b: Bytes)
    ensures b == InnerBytes(i)
  {
    hide U32, Blob, Blobs, GrantsBytes, InnerBytes;
    var w := new Writer();
    var version := if i.grants == [] then 2 else 3;
    w.PutU32(version);
    w.PutBlob(i.bundle);
    w.PutU32(|i.introduced|);
    w.PutBlobs(i.introduced);
    ghost var head := w.buf;
    ghost var grants: Bytes := [];
    if i.grants != [] {
      w.PutU32(|i.grants|);
      WriteGrants(w, i.grants);
      grants := U32(|i.grants|) + GrantsBytes(i.grants);
    }
    assert w.buf == head + grants;
    w.PutU32(|i.records|);
    w.PutBlobs(i.records);
    b := w.buf;
    InnerLayout(i);
    OneAfterAnother(U32(version), Blob(i.bundle), U32(|i.introduced|), Blobs(i.introduced), grants, U32(|i.records|), Blobs(i.records));
    assert [] + U32(version) == U32(version);
  }

  method WriteGrants(w: Writer, grants: seq<Grant>)
    modifies w
    ensures w.buf == old(w.buf) + GrantsBytes(grants)
  {
    hide Blob;
    var k := 0;
    assert grants[0..] == grants;
    while k < |grants|
      invariant 0 <= k <= |grants| && w.buf + GrantsBytes(grants[k..]) == old(w.buf) + GrantsBytes(grants)
    {
      assert grants[k..][1..] == grants[k + 1..];
      ghost var was, g := w.buf, grants[k];
      w.PutBlob(grants[k].fileId);
      w.PutBlob(grants[k].key);
      w.PutBlob(grants[k].token);
      assert was + (Blob(g.fileId) + Blob(g.key) + Blob(g.token) + GrantsBytes(grants[k + 1..])) == w.buf + GrantsBytes(grants[k + 1..]);
      k := k + 1;
    }
  }

  // Reading one grant.
  method ReadGrant(r: Reader) returns (g: Option<Grant>)
    requires r.Valid()
    modifies r
    ensures r.Valid() && GrantC().dec(old(r.Rest())) == if g.Some? then Some((g.value, r.Rest())) else None
  {
    hide ReadBlob;
    ghost var b0 := r.Rest();
    var id := r.GetBlob(16);
    if id.None? || |id.value| != 16 { GrantFails(b0); return None; }
    ghost var b1 := r.Rest();
    var key := r.GetBlob(32);
    if key.None? || |key.value| != 32 { GrantFails(b0); return None; }
    var token := r.GetBlob(32);
    if token.None? || |token.value| != 32 { GrantFails(b0); return None; }
    GrantFails(b0);
    return Some(Grant(id.value, key.value, token.value));
  }

  lemma GrantFails(b: Bytes)
    ensures GrantC().dec(b) ==
              var x := Exact(16, 16).dec(b);
              if x.None? then None else
              var y := Exact(32, 32).dec(x.value.1);
              if y.None? then None else
              var z := Exact(32, 32).dec(y.value.1);
              if z.None? then None else Some((Grant(x.value.0, y.value.0, z.value.0), z.value.1))
  {
    hide Exact;
    ThenDec(Exact(16, 16), Then(Exact(32, 32), Exact(32, 32)), b);
    if Exact(16, 16).dec(b).Some? { ThenDec(Exact(32, 32), Exact(32, 32), Exact(16, 16).dec(b).value.1); }
  }

  method ReadList(r: Reader, high: nat, max: int) returns (items: Option<seq<Bytes>>)
    requires r.Valid()
    modifies r
    ensures r.Valid() && ListC(BlobC(max), 0, high).dec(old(r.Rest())) == if items.Some? then Some((items.value, r.Rest())) else None
  {
    hide DecAll, BlobC, ReadU32;
    ReadU32Bounds(r.Rest());
    var n := r.GetU32();
    if n.None? || n.value > high { return None; }
    items := r.GetBlobs(n.value, max);
  }

  method ReadGrants(r: Reader) returns (grants: Option<seq<Grant>>)
    requires r.Valid()
    modifies r
    ensures r.Valid() && GrantsC().dec(old(r.Rest())) == if grants.Some? then Some((grants.value, r.Rest())) else None
  {
    hide DecAll, GrantC, ReadU32, DistinctFiles, Prefixed;
    ReadU32Bounds(r.Rest());
    var n := r.GetU32();
    if n.None? || n.value < 1 || n.value > MAX_GRANTS { return None; }
    ghost var all := DecAll(GrantC(), n.value, r.Rest());
    var k: nat, got: seq<Grant> := 0, [];
    PrefixNothing(all);
    NoneYet();
    while k < n.value
      invariant 0 <= k <= n.value && r.Valid() && DistinctFiles(got)
      invariant all == Prefixed(got, DecAll(GrantC(), n.value - k, r.Rest()))
    {
      PrefixStep(got, GrantC(), n.value - k, r.Rest());
      var g := ReadGrant(r);
      if g.None? { return None; }
      var repeated := exists j :: 0 <= j < |got| && got[j].fileId == g.value.fileId;
      OneMore(got, g.value, DecAll(GrantC(), n.value - k - 1, r.Rest()));
      if repeated { return None; }
      got := got + [g.value];
      k := k + 1;
    }
    NoneLeft(got, GrantC(), r.Rest());
    return Some(got);
  }

  lemma NoneYet()
    ensures DistinctFiles([])
  {
  }

  lemma OneMore(got: seq<Grant>, g: Grant, more: Option<(seq<Grant>, Bytes)>)
    requires DistinctFiles(got)
    ensures if exists j :: 0 <= j < |got| && got[j].fileId == g.fileId
            then Prefixed(got + [g], more).Some? ==> !DistinctFiles(Prefixed(got + [g], more).value.0)
            else DistinctFiles(got + [g])
  {
    if more.Some? {
      var all := got + [g] + more.value.0;
      assert all[|got|] == g;
      forall j | 0 <= j < |got| && got[j].fileId == g.fileId ensures !DistinctFiles(all) { assert all[j] == got[j]; }
    }
  }

  function BodyOf(version: int): Codec<Inner> {
    As(Then(BlobC(MAX_BUNDLE), Then(if version >= 2 then BundlesC() else NothingC([]), Then(if version >= 3 then GrantsC() else NothingC([]), RecordsC()))),
       MakeInner, SplitInner)
  }

  lemma PartsDec(bundle: Codec<Bytes>, introduced: Codec<seq<Bytes>>, grants: Codec<seq<Grant>>, records: Codec<seq<Bytes>>, b: Bytes)
    ensures As(Then(bundle, Then(introduced, Then(grants, records))), MakeInner, SplitInner).dec(b) ==
              var w := bundle.dec(b);
              if w.None? then None else
              var x := introduced.dec(w.value.1);
              if x.None? then None else
              var y := grants.dec(x.value.1);
              if y.None? then None else
              var z := records.dec(y.value.1);
              if z.None? then None else Some((Inner(w.value.0, z.value.0, x.value.0, y.value.0), z.value.1))
  {
    hide Then;
    ThenDec(bundle, Then(introduced, Then(grants, records)), b);
    if bundle.dec(b).Some? {
      var b1 := bundle.dec(b).value.1;
      ThenDec(introduced, Then(grants, records), b1);
      if introduced.dec(b1).Some? { ThenDec(grants, records, introduced.dec(b1).value.1); }
    }
  }

  lemma BodyIs(version: int)
    requires 1 <= version <= 3
    ensures BodyOf(version) == if version == 1 then Body1() else if version == 2 then Body2() else Body3()
  {
  }

  lemma DecodesBody(b: Bytes)
    ensures DecodeInner(b) ==
              match ReadU32(b) case None => None case Some((version, rest)) => if 1 <= version <= 3 then Whole(BodyOf(version), rest) else None
  {
    hide ReadU32, Body1, Body2, Body3, BodyOf, Whole;
    if ReadU32(b).Some? && 1 <= ReadU32(b).value.0 <= 3 { BodyIs(ReadU32(b).value.0); }
  }

  method ReadInner(b: Bytes) returns (i: Option<Inner>)
    ensures i == DecodeInner(b)
  {
    hide ReadU32, DecodeInner, BodyOf, Whole;
    DecodesBody(b);
    var r := new Reader(b);
    var version := r.GetU32();
    if version.None? || version.value < 1 || version.value > 3 { return None; }
    i := ReadBody(r, version.value);
  }

  method ReadBody(r: Reader, version: int) returns (i: Option<Inner>)
    requires r.Valid()
    modifies r
    ensures i == Whole(BodyOf(version), old(r.Rest()))
  {
    hide ReadU32, ReadBlob, BundlesC, GrantsC, As, Then, DecAll;
    PartsDec(BlobC(MAX_BUNDLE), if version >= 2 then BundlesC() else NothingC([]), if version >= 3 then GrantsC() else NothingC([]), RecordsC(), r.Rest());
    BundlesAre();
    var bundle := r.GetBlob(MAX_BUNDLE);
    if bundle.None? { return None; }
    var introduced: Option<seq<Bytes>> := Some([]);
    if version >= 2 { introduced := ReadList(r, MAX_INTRODUCED, MAX_BUNDLE); }
    if introduced.None? { return None; }
    var grants: Option<seq<Grant>> := Some([]);
    if version >= 3 { grants := ReadGrants(r); }
    if grants.None? { return None; }
    var records := ReadList(r, MAX_RECORDS, MAX_RECORD);
    if records.None? || r.off != |r.data| { return None; }
    return Some(Inner(bundle.value, records.value, introduced.value, grants.value));
  }

  lemma BundlesAre()
    ensures BundlesC() == ListC(BlobC(MAX_BUNDLE), 0, MAX_INTRODUCED)
  {
  }
}
