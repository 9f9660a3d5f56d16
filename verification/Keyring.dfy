/**
 The keyring's bytes (client/keyring.cpp).
 */
module Keyring {
  import opened Wire

  const VERSION := 1
  const MAX_ARCHIVES := 4096
  const MAX_ENTRIES := 100000
  const MAX_TEXT := 4096
  const MAX_BUNDLE := 16 * 1024
  const MAX_KEY := 8192

  type Time = t: int | -TWO64 / 2 <= t < TWO64 / 2

  datatype Archive = Archive(conversation: Bytes, address: Bytes, relayId: Bytes, role: int, state: int, archiveKey: Bytes,
                             publicKey: Bytes, privateKey: Bytes, joinToken: Bytes)
  datatype MemberToken = MemberToken(conversation: Bytes, member: Bytes, token: Bytes)
  datatype Introduced = Introduced(fp: Bytes, bundle: Bytes, issuedAt: Time, introducedBy: Bytes, firstSeen: Time)
  datatype Issued = Issued(hash: Bytes, name: Bytes, createdAt: Time, boundTo: Bytes, revoked: bool)
  datatype Receipts = Receipts(conversation: Bytes, delivery: bool, read: bool)

  datatype Contents = Contents(archives: seq<Archive>, verified: seq<Bytes>, tokens: seq<MemberToken>, introduced: seq<Introduced>,
                               issued: seq<Issued>, receipts: seq<Receipts>)

  // ---- Single values ----

  function Some1(max: int): Codec<Bytes> {
    Where(BlobC(max), (b: Bytes) => b != [])
  }

  // The cast between signed and unsigned 64-bit numbers.
  function Signed(n: int): Time {
    if 0 <= n < TWO64 / 2 then n else if TWO64 / 2 <= n < TWO64 then n - TWO64 else 0
  }

  function Unsigned(t: Time): int {
    if t < 0 then t + TWO64 else t
  }

  function TimeC(): Codec<Time> {
    As(U64C(), Signed, Unsigned)
  }

  function Number(low: int, high: int): Codec<int> {
    Where(U32C(), (v: int) => low <= v <= high)
  }

  function BoolC(): Codec<bool> {
    As(Number(0, 1), (v: int) => v == 1, (b: bool) => if b then 1 else 0)
  }

  function FlagsC(): Codec<(bool, bool)> {
    As(Number(0, 3), (v: int) => (v % 2 == 1, v / 2 % 2 == 1), (f: (bool, bool)) => (if f.0 then 1 else 0) + (if f.1 then 2 else 0))
  }

  lemma Some1Lawful(max: int)
    ensures Lawful(Some1(max))
  {
    BlobLawful(max);
    WhereLawful(BlobC(max), (b: Bytes) => b != []);
  }

  lemma NumberLawful(low: int, high: int)
    ensures Lawful(Number(low, high))
  {
    hide Lawful;
    U32Lawful();
    WhereLawful(U32C(), (v: int) => low <= v <= high);
  }

  lemma SmallLawful()
    ensures Lawful(TimeC()) && Lawful(BoolC()) && Lawful(FlagsC())
  {
    hide *;
    TimeLawful();
    BoolLawful();
    FlagsLawful();
  }

  lemma TimeLawful()
    ensures Lawful(TimeC())
  {
    hide Lawful;
    U64Lawful();
    AsLawful(U64C(), Signed, Unsigned);
  }

  lemma BoolLawful()
    ensures Lawful(BoolC())
  {
    hide Lawful;
    NumberLawful(0, 1);
    AsLawful(Number(0, 1), (v: int) => v == 1, (b: bool) => if b then 1 else 0);
  }

  lemma FlagsLawful()
    ensures Lawful(FlagsC())
  {
    hide Lawful;
    NumberLawful(0, 3);
    AsLawful(Number(0, 3), (v: int) => (v % 2 == 1, v / 2 % 2 == 1), (f: (bool, bool)) => (if f.0 then 1 else 0) + (if f.1 then 2 else 0));
  }

  // ---- Entries ----

  type Where1 = (Bytes, (Bytes, Bytes))
  type Keys1 = (Bytes, (Bytes, (Bytes, Bytes)))

  function PlaceC(): Codec<Where1> {
    Then(Exact(32, 16), Then(Some1(255), Exact(32, 32)))
  }

  function RolesC(): Codec<(int, int)> {
    Then(Number(1, 2), Number(0, 2))
  }

  function JoinTokenC(): Codec<Bytes> {
    Where(BlobC(32), (b: Bytes) => |b| == 32 || b == [])
  }

  function KeysC(): Codec<Keys1> {
    Then(Exact(32, 32), Then(Some1(MAX_KEY), Then(Some1(MAX_KEY), JoinTokenC())))
  }

  function ArchiveC(): Codec<Archive> {
    As(Then(PlaceC(), Then(RolesC(), KeysC())),
       (x: (Where1, ((int, int), Keys1))) => Archive(x.0.0, x.0.1.0, x.0.1.1, x.1.0.0, x.1.0.1, x.1.1.0, x.1.1.1.0, x.1.1.1.1.0, x.1.1.1.1.1),
       (a: Archive) => ((a.conversation, (a.address, a.relayId)), ((a.role, a.state), (a.archiveKey, (a.publicKey, (a.privateKey, a.joinToken))))))
  }

  function MemberTokenC(): Codec<MemberToken> {
    As(Then(Exact(32, 16), Then(BlobC(64), Exact(32, 32))),
       (x: (Bytes, (Bytes, Bytes))) => MemberToken(x.0, x.1.0, x.1.1), (t: MemberToken) => (t.conversation, (t.member, t.token)))
  }

  function IntroducedC(): Codec<Introduced> {
    As(Then(BlobC(64), Then(Some1(MAX_BUNDLE), Then(TimeC(), Then(BlobC(64), TimeC())))),
       (x: (Bytes, (Bytes, (Time, (Bytes, Time))))) => Introduced(x.0, x.1.0, x.1.1.0, x.1.1.1.0, x.1.1.1.1),
       (i: Introduced) => (i.fp, (i.bundle, (i.issuedAt, (i.introducedBy, i.firstSeen)))))
  }

  function IssuedC(): Codec<Issued> {
    As(Then(Exact(32, 32), Then(BlobC(MAX_TEXT), Then(TimeC(), Then(BlobC(64), BoolC())))),
       (x: (Bytes, (Bytes, (Time, (Bytes, bool))))) => Issued(x.0, x.1.0, x.1.1.0, x.1.1.1.0, x.1.1.1.1),
       (t: Issued) => (t.hash, (t.name, (t.createdAt, (t.boundTo, t.revoked)))))
  }

  function ReceiptsC(): Codec<Receipts> {
    As(Then(Exact(32, 16), FlagsC()),
       (x: (Bytes, (bool, bool))) => Receipts(x.0, x.1.0, x.1.1), (r: Receipts) => (r.conversation, (r.delivery, r.read)))
  }

  lemma ArchiveLawful()
    ensures Lawful(ArchiveC())
  {
    hide Lawful, Exact, Some1, Number, Then, BlobC;
    ExactLawful(32, 16);
    ExactLawful(32, 32);
    Some1Lawful(255);
    Some1Lawful(MAX_KEY);
    NumberLawful(1, 2);
    NumberLawful(0, 2);
    BlobLawful(32);
    WhereLawful(BlobC(32), (b: Bytes) => |b| == 32 || b == []);
    ThenLawful(Some1(255), Exact(32, 32));
    ThenLawful(Exact(32, 16), Then(Some1(255), Exact(32, 32)));
    ThenLawful(Number(1, 2), Number(0, 2));
    ThenLawful(Some1(MAX_KEY), JoinTokenC());
    ThenLawful(Some1(MAX_KEY), Then(Some1(MAX_KEY), JoinTokenC()));
    ThenLawful(Exact(32, 32), Then(Some1(MAX_KEY), Then(Some1(MAX_KEY), JoinTokenC())));
    ThenLawful(RolesC(), KeysC());
    ThenLawful(PlaceC(), Then(RolesC(), KeysC()));
    AsLawful(Then(PlaceC(), Then(RolesC(), KeysC())),
       (x: (Where1, ((int, int), Keys1))) => Archive(x.0.0, x.0.1.0, x.0.1.1, x.1.0.0, x.1.0.1, x.1.1.0, x.1.1.1.0, x.1.1.1.1.0, x.1.1.1.1.1),
       (a: Archive) => ((a.conversation, (a.address, a.relayId)), ((a.role, a.state), (a.archiveKey, (a.publicKey, (a.privateKey, a.joinToken))))));
  }

  lemma TokensLawful()
    ensures Lawful(MemberTokenC()) && Lawful(ReceiptsC())
  {
    hide Lawful, Exact, Then, BlobC, FlagsC;
    ExactLawful(32, 16);
    ExactLawful(32, 32);
    BlobLawful(64);
    SmallLawful();
    ThenLawful(BlobC(64), Exact(32, 32));
    ThenLawful(Exact(32, 16), Then(BlobC(64), Exact(32, 32)));
    AsLawful(Then(Exact(32, 16), Then(BlobC(64), Exact(32, 32))),
       (x: (Bytes, (Bytes, Bytes))) => MemberToken(x.0, x.1.0, x.1.1), (t: MemberToken) => (t.conversation, (t.member, t.token)));
    ThenLawful(Exact(32, 16), FlagsC());
    AsLawful(Then(Exact(32, 16), FlagsC()),
       (x: (Bytes, (bool, bool))) => Receipts(x.0, x.1.0, x.1.1), (r: Receipts) => (r.conversation, (r.delivery, r.read)));
  }

  lemma IntroducedLawful()
    ensures Lawful(IntroducedC())
  {
    hide Lawful, Some1, Then, BlobC, TimeC;
    Some1Lawful(MAX_BUNDLE);
    BlobLawful(64);
    SmallLawful();
    ThenLawful(BlobC(64), TimeC());
    ThenLawful(TimeC(), Then(BlobC(64), TimeC()));
    ThenLawful(Some1(MAX_BUNDLE), Then(TimeC(), Then(BlobC(64), TimeC())));
    ThenLawful(BlobC(64), Then(Some1(MAX_BUNDLE), Then(TimeC(), Then(BlobC(64), TimeC()))));
    AsLawful(Then(BlobC(64), Then(Some1(MAX_BUNDLE), Then(TimeC(), Then(BlobC(64), TimeC())))),
       (x: (Bytes, (Bytes, (Time, (Bytes, Time))))) => Introduced(x.0, x.1.0, x.1.1.0, x.1.1.1.0, x.1.1.1.1),
       (i: Introduced) => (i.fp, (i.bundle, (i.issuedAt, (i.introducedBy, i.firstSeen)))));
  }

  lemma IssuedLawful()
    ensures Lawful(IssuedC())
  {
    hide Lawful, Exact, Then, BlobC, TimeC, BoolC;
    ExactLawful(32, 32);
    BlobLawful(64);
    BlobLawful(MAX_TEXT);
    SmallLawful();
    ThenLawful(BlobC(64), BoolC());
    ThenLawful(TimeC(), Then(BlobC(64), BoolC()));
    ThenLawful(BlobC(MAX_TEXT), Then(TimeC(), Then(BlobC(64), BoolC())));
    ThenLawful(Exact(32, 32), Then(BlobC(MAX_TEXT), Then(TimeC(), Then(BlobC(64), BoolC()))));
    AsLawful(Then(Exact(32, 32), Then(BlobC(MAX_TEXT), Then(TimeC(), Then(BlobC(64), BoolC())))),
       (x: (Bytes, (Bytes, (Time, (Bytes, bool))))) => Issued(x.0, x.1.0, x.1.1.0, x.1.1.1.0, x.1.1.1.1),
       (t: Issued) => (t.hash, (t.name, (t.createdAt, (t.boundTo, t.revoked)))));
  }

  // ---- Lists whose count is checked against what is left ----

  // A count that can't be larger than the data left could hold: each entry is at least four bytes.
  function CountedC<T>(c: Codec<T>, max: nat): Codec<seq<T>> {
    var list := ListC(c, 0, max);
    Codec(list.ok, list.enc,
          b => match ReadU32(b)
               case None => None
               case Some((n, rest)) => if n * 4 > |rest| then None else list.dec(b))
  }

  ghost predicate FourBytes<T(!new)>(c: Codec<T>) {
    forall x :: |c.enc(x)| >= 4
  }

  lemma BlobFour(max: int)
    ensures FourBytes(BlobC(max)) && FourBytes(Some1(max)) && forall size :: FourBytes(Exact(max, size))
  {
  }

  lemma ThenFour<A(!new), B(!new)>(a: Codec<A>, b: Codec<B>)
    requires FourBytes(a)
    ensures FourBytes(Then(a, b))
  {
    var d := Then(a, b);
    forall x ensures |d.enc(x)| >= 4 { assert d.enc(x) == a.enc(x.0) + b.enc(x.1); }
  }

  lemma AsFour<A(!new), B(!new)>(c: Codec<A>, into: A -> B, back: B -> A)
    requires FourBytes(c)
    ensures FourBytes(As(c, into, back))
  {
    var d := As(c, into, back);
    forall y ensures |d.enc(y)| >= 4 { assert d.enc(y) == c.enc(back(y)); }
  }

  lemma {:induction false} AllFour<T(!new)>(c: Codec<T>, xs: seq<T>)
    requires FourBytes(c)
    ensures |EncAll(c, xs)| >= 4 * |xs|
    decreases |xs|
  {
    if xs != [] { AllFour(c, xs[1..]); }
  }

  // The check refuses nothing that could have been read.
  lemma CountedSame<T(!new)>(c: Codec<T>, max: nat, b: Bytes)
    requires Lawful(c) && FourBytes(c)
    ensures CountedC(c, max).dec(b) == ListC(c, 0, max).dec(b)
  {
    hide Lawful;
    if ListC(c, 0, max).dec(b).Some? {
      var (n, rest) := ReadU32(b).value;
      AllAccepts(c, n, rest);
      AllFour(c, DecAll(c, n, rest).value.0);
    }
  }

  lemma CountedLawful<T(!new)>(c: Codec<T>, max: nat)
    requires Lawful(c) && FourBytes(c)
    ensures Lawful(CountedC(c, max))
  {
    ListLawful(c, 0, max);
    var d, list := CountedC(c, max), ListC(c, 0, max);
    hide ListC;
    forall b ensures d.dec(b) == list.dec(b) { CountedSame(c, max, b); }
    SameLaw(d, list);
  }

  lemma SameLaw<T(!new)>(d: Codec<T>, c: Codec<T>)
    requires Lawful(c) && d.ok == c.ok && d.enc == c.enc && forall b :: d.dec(b) == c.dec(b)
    ensures Lawful(d)
  {
  }

  // ---- The whole keyring ----

  type Lists = (seq<Archive>, (seq<Bytes>, (seq<MemberToken>, (seq<Introduced>, (seq<Issued>, seq<Receipts>)))))

  function ListsC(): Codec<Lists> {
    Then(CountedC(ArchiveC(), MAX_ARCHIVES), Then(CountedC(BlobC(64), MAX_ENTRIES), Then(CountedC(MemberTokenC(), MAX_ENTRIES),
      Then(CountedC(IntroducedC(), MAX_ENTRIES), Then(CountedC(IssuedC(), MAX_ENTRIES), CountedC(ReceiptsC(), MAX_ENTRIES))))))
  }

  function Magic(): Bytes {
    Ascii("pq-suite v3 keyring")
  }

  function StartC(): Codec<(Bytes, int)> {
    Then(Where(BlobC(64), (b: Bytes) => b == Magic()), Number(VERSION, VERSION))
  }

  function ContentsC(): Codec<Contents> {
    As(Then(StartC(), ListsC()),
       (x: ((Bytes, int), Lists)) => Contents(x.1.0, x.1.1.0, x.1.1.1.0, x.1.1.1.1.0, x.1.1.1.1.1.0, x.1.1.1.1.1.1),
       (c: Contents) => ((Magic(), VERSION), (c.archives, (c.verified, (c.tokens, (c.introduced, (c.issued, c.receipts)))))))
  }

  lemma EntriesFour()
    ensures FourBytes(ArchiveC()) && FourBytes(BlobC(64)) && FourBytes(MemberTokenC()) && FourBytes(IntroducedC()) && FourBytes(IssuedC()) && FourBytes(ReceiptsC())
  {
    BlobFour(32);
    BlobFour(64);
    hide FourBytes, Exact, Some1, BlobC, Then, As, TimeC, BoolC, FlagsC, RolesC, KeysC;
    ThenFour(Exact(32, 16), Then(Some1(255), Exact(32, 32)));
    ThenFour(PlaceC(), Then(RolesC(), KeysC()));
    AsFour(Then(PlaceC(), Then(RolesC(), KeysC())),
       (x: (Where1, ((int, int), Keys1))) => Archive(x.0.0, x.0.1.0, x.0.1.1, x.1.0.0, x.1.0.1, x.1.1.0, x.1.1.1.0, x.1.1.1.1.0, x.1.1.1.1.1),
       (a: Archive) => ((a.conversation, (a.address, a.relayId)), ((a.role, a.state), (a.archiveKey, (a.publicKey, (a.privateKey, a.joinToken))))));
    ThenFour(Exact(32, 16), Then(BlobC(64), Exact(32, 32)));
    AsFour(Then(Exact(32, 16), Then(BlobC(64), Exact(32, 32))),
       (x: (Bytes, (Bytes, Bytes))) => MemberToken(x.0, x.1.0, x.1.1), (t: MemberToken) => (t.conversation, (t.member, t.token)));
    ThenFour(BlobC(64), Then(Some1(MAX_BUNDLE), Then(TimeC(), Then(BlobC(64), TimeC()))));
    AsFour(Then(BlobC(64), Then(Some1(MAX_BUNDLE), Then(TimeC(), Then(BlobC(64), TimeC())))),
       (x: (Bytes, (Bytes, (Time, (Bytes, Time))))) => Introduced(x.0, x.1.0, x.1.1.0, x.1.1.1.0, x.1.1.1.1),
       (i: Introduced) => (i.fp, (i.bundle, (i.issuedAt, (i.introducedBy, i.firstSeen)))));
    ThenFour(Exact(32, 32), Then(BlobC(MAX_TEXT), Then(TimeC(), Then(BlobC(64), BoolC()))));
    AsFour(Then(Exact(32, 32), Then(BlobC(MAX_TEXT), Then(TimeC(), Then(BlobC(64), BoolC())))),
       (x: (Bytes, (Bytes, (Time, (Bytes, bool))))) => Issued(x.0, x.1.0, x.1.1.0, x.1.1.1.0, x.1.1.1.1),
       (t: Issued) => (t.hash, (t.name, (t.createdAt, (t.boundTo, t.revoked)))));
    ThenFour(Exact(32, 16), FlagsC());
    AsFour(Then(Exact(32, 16), FlagsC()),
       (x: (Bytes, (bool, bool))) => Receipts(x.0, x.1.0, x.1.1), (r: Receipts) => (r.conversation, (r.delivery, r.read)));
  }

  lemma ListsLawful()
    ensures Lawful(ListsC())
  {
    EntriesFour();
    ArchiveLawful();
    TokensLawful();
    IntroducedLawful();
    IssuedLawful();
    BlobLawful(64);
    hide Lawful, FourBytes, ArchiveC, BlobC, MemberTokenC, IntroducedC, IssuedC, ReceiptsC, Then, CountedC;
    CountedLawful(ArchiveC(), MAX_ARCHIVES);
    CountedLawful(BlobC(64), MAX_ENTRIES);
    CountedLawful(MemberTokenC(), MAX_ENTRIES);
    CountedLawful(IntroducedC(), MAX_ENTRIES);
    CountedLawful(IssuedC(), MAX_ENTRIES);
    CountedLawful(ReceiptsC(), MAX_ENTRIES);
    var e, f := CountedC(IssuedC(), MAX_ENTRIES), CountedC(ReceiptsC(), MAX_ENTRIES);
    var c, d := CountedC(MemberTokenC(), MAX_ENTRIES), CountedC(IntroducedC(), MAX_ENTRIES);
    ThenLawful(e, f);
    ThenLawful(d, Then(e, f));
    ThenLawful(c, Then(d, Then(e, f)));
    ThenLawful(CountedC(BlobC(64), MAX_ENTRIES), Then(c, Then(d, Then(e, f))));
    ThenLawful(CountedC(ArchiveC(), MAX_ARCHIVES), Then(CountedC(BlobC(64), MAX_ENTRIES), Then(c, Then(d, Then(e, f)))));
  }

  lemma StartLawful()
    ensures Lawful(StartC())
  {
    hide Lawful, BlobC, Number;
    BlobLawful(64);
    WhereLawful(BlobC(64), (b: Bytes) => b == Magic());
    NumberLawful(VERSION, VERSION);
    ThenLawful(Where(BlobC(64), (b: Bytes) => b == Magic()), Number(VERSION, VERSION));
  }

  lemma ContentsLawful()
    ensures Lawful(ContentsC())
  {
    StartLawful();
    ListsLawful();
    StartFixed();
    hide Lawful, ListsC, StartC, Then;
    ThenLawful(StartC(), ListsC());
    PairFixed(StartC(), ListsC());
    AsLawful(Then(StartC(), ListsC()),
       (x: ((Bytes, int), Lists)) => Contents(x.1.0, x.1.1.0, x.1.1.1.0, x.1.1.1.1.0, x.1.1.1.1.1.0, x.1.1.1.1.1.1),
       (c: Contents) => ((Magic(), VERSION), (c.archives, (c.verified, (c.tokens, (c.introduced, (c.issued, c.receipts)))))));
  }

  lemma StartFixed()
    ensures forall x :: StartC().ok(x) ==> x == (Magic(), VERSION)
  {
  }

  lemma PairFixed<B(!new)>(a: Codec<(Bytes, int)>, b: Codec<B>)
    requires forall x :: a.ok(x) ==> x == (Magic(), VERSION)
    ensures forall x :: Then(a, b).ok(x) ==> x.0 == (Magic(), VERSION)
  {
  }

  // serialize refuses a text that is too long; the reader's own limits are mostly lower.
  predicate TextsFit(c: Contents) {
    && (forall i :: 0 <= i < |c.archives| ==> |c.archives[i].address| <= MAX_TEXT)
    && (forall i :: 0 <= i < |c.verified| ==> |c.verified[i]| <= MAX_TEXT)
    && (forall i :: 0 <= i < |c.tokens| ==> |c.tokens[i].member| <= MAX_TEXT)
    && (forall i :: 0 <= i < |c.introduced| ==> |c.introduced[i].fp| <= MAX_TEXT && |c.introduced[i].introducedBy| <= MAX_TEXT)
    && (forall i :: 0 <= i < |c.issued| ==> |c.issued[i].name| <= MAX_TEXT && |c.issued[i].boundTo| <= MAX_TEXT)
  }

  function Serialize(c: Contents): Option<Bytes> {
    if TextsFit(c) then Some(ContentsC().enc(c)) else None
  }

  function Parse(b: Bytes): Option<Contents> {
    Whole(ContentsC(), b)
  }

  // ---- What the reader takes ----

  predicate ArchiveFits(a: Archive) {
    && |a.conversation| == 16 && 1 <= |a.address| <= 255 && |a.relayId| == 32 && 1 <= a.role <= 2 && 0 <= a.state <= 2
    && |a.archiveKey| == 32 && 1 <= |a.publicKey| <= MAX_KEY && 1 <= |a.privateKey| <= MAX_KEY && (|a.joinToken| == 32 || a.joinToken == [])
  }

  predicate TokenFits(t: MemberToken) {
    |t.conversation| == 16 && |t.member| <= 64 && |t.token| == 32
  }

  predicate IntroducedFits(i: Introduced) {
    |i.fp| <= 64 && 1 <= |i.bundle| <= MAX_BUNDLE && |i.introducedBy| <= 64
  }

  predicate IssuedFits(t: Issued) {
    |t.hash| == 32 && |t.name| <= MAX_TEXT && |t.boundTo| <= 64
  }

  predicate Fits(c: Contents) {
    && |c.archives| <= MAX_ARCHIVES && (forall i :: 0 <= i < |c.archives| ==> ArchiveFits(c.archives[i]))
    && |c.verified| <= MAX_ENTRIES && (forall i :: 0 <= i < |c.verified| ==> |c.verified[i]| <= 64)
    && |c.tokens| <= MAX_ENTRIES && (forall i :: 0 <= i < |c.tokens| ==> TokenFits(c.tokens[i]))
    && |c.introduced| <= MAX_ENTRIES && (forall i :: 0 <= i < |c.introduced| ==> IntroducedFits(c.introduced[i]))
    && |c.issued| <= MAX_ENTRIES && (forall i :: 0 <= i < |c.issued| ==> IssuedFits(c.issued[i]))
    && |c.receipts| <= MAX_ENTRIES && (forall i :: 0 <= i < |c.receipts| ==> |c.receipts[i].conversation| == 16)
  }

  lemma PlaceOk(conversation: Bytes, address: Bytes, relayId: Bytes, role: int, state: int)
    ensures PlaceC().ok((conversation, (address, relayId))) <==> |conversation| == 16 && 1 <= |address| <= 255 && |relayId| == 32
    ensures RolesC().ok((role, state)) <==> 1 <= role <= 2 && 0 <= state <= 2
  {
    ThenOk(Some1(255), Exact(32, 32), address, relayId);
    ThenOk(Exact(32, 16), Then(Some1(255), Exact(32, 32)), conversation, (address, relayId));
    ThenOk(Number(1, 2), Number(0, 2), role, state);
    hide Then;
  }

  lemma ArchiveOk(a: Archive)
    ensures ArchiveC().ok(a) <==> ArchiveFits(a)
  {
    hide PlaceC, RolesC, KeysC, Then;
    var place, roles, keys := (a.conversation, (a.address, a.relayId)), (a.role, a.state), (a.archiveKey, (a.publicKey, (a.privateKey, a.joinToken)));
    PlaceOk(a.conversation, a.address, a.relayId, a.role, a.state);
    KeysOk(a.archiveKey, a.publicKey, a.privateKey, a.joinToken);
    ThenOk(RolesC(), KeysC(), roles, keys);
    ThenOk(PlaceC(), Then(RolesC(), KeysC()), place, (roles, keys));
  }

  lemma KeysOk(archiveKey: Bytes, publicKey: Bytes, privateKey: Bytes, joinToken: Bytes)
    ensures KeysC().ok((archiveKey, (publicKey, (privateKey, joinToken)))) <==>
              |archiveKey| == 32 && 1 <= |publicKey| <= MAX_KEY && 1 <= |privateKey| <= MAX_KEY && (|joinToken| == 32 || joinToken == [])
  {
    ThenOk(Some1(MAX_KEY), JoinTokenC(), privateKey, joinToken);
    ThenOk(Some1(MAX_KEY), Then(Some1(MAX_KEY), JoinTokenC()), publicKey, (privateKey, joinToken));
    ThenOk(Exact(32, 32), Then(Some1(MAX_KEY), Then(Some1(MAX_KEY), JoinTokenC())), archiveKey, (publicKey, (privateKey, joinToken)));
    hide Then;
  }

  lemma TokenOk(t: MemberToken)
    ensures MemberTokenC().ok(t) <==> TokenFits(t)
  {
    ThenOk(BlobC(64), Exact(32, 32), t.member, t.token);
    ThenOk(Exact(32, 16), Then(BlobC(64), Exact(32, 32)), t.conversation, (t.member, t.token));
    hide Then;
  }

  lemma TimeOk(t: Time)
    ensures TimeC().ok(t)
  {
    assert U64C().ok(Unsigned(t));
  }

  lemma IntroducedOk(i: Introduced)
    ensures IntroducedC().ok(i) <==> IntroducedFits(i)
  {
    TimeOk(i.issuedAt);
    TimeOk(i.firstSeen);
    hide TimeC, Then;
    ThenOk(BlobC(64), TimeC(), i.introducedBy, i.firstSeen);
    ThenOk(TimeC(), Then(BlobC(64), TimeC()), i.issuedAt, (i.introducedBy, i.firstSeen));
    ThenOk(Some1(MAX_BUNDLE), Then(TimeC(), Then(BlobC(64), TimeC())), i.bundle, (i.issuedAt, (i.introducedBy, i.firstSeen)));
    ThenOk(BlobC(64), Then(Some1(MAX_BUNDLE), Then(TimeC(), Then(BlobC(64), TimeC()))), i.fp, (i.bundle, (i.issuedAt, (i.introducedBy, i.firstSeen))));
  }

  lemma BoolOk(b: bool, f: (bool, bool))
    ensures BoolC().ok(b) && FlagsC().ok(f)
  {
  }

  lemma IssuedOk(t: Issued)
    ensures IssuedC().ok(t) <==> IssuedFits(t)
  {
    TimeOk(t.createdAt);
    BoolOk(t.revoked, (true, true));
    hide TimeC, BoolC, Then;
    ThenOk(BlobC(64), BoolC(), t.boundTo, t.revoked);
    ThenOk(TimeC(), Then(BlobC(64), BoolC()), t.createdAt, (t.boundTo, t.revoked));
    ThenOk(BlobC(MAX_TEXT), Then(TimeC(), Then(BlobC(64), BoolC())), t.name, (t.createdAt, (t.boundTo, t.revoked)));
    ThenOk(Exact(32, 32), Then(BlobC(MAX_TEXT), Then(TimeC(), Then(BlobC(64), BoolC()))), t.hash, (t.name, (t.createdAt, (t.boundTo, t.revoked))));
  }

  lemma ReceiptsOk(r: Receipts)
    ensures ReceiptsC().ok(r) <==> |r.conversation| == 16
  {
    BoolOk(true, (r.delivery, r.read));
    hide FlagsC;
    ThenOk(Exact(32, 16), FlagsC(), r.conversation, (r.delivery, r.read));
  }

  lemma CountedOk<T(!new)>(c: Codec<T>, max: nat, xs: seq<T>, fits: T -> bool)
    requires max < TWO32 && forall x :: c.ok(x) <==> fits(x)
    ensures CountedC(c, max).ok(xs) <==> |xs| <= max && forall i :: 0 <= i < |xs| ==> fits(xs[i])
  {
  }

  lemma ListsOk(c: Contents)
    ensures ListsC().ok((c.archives, (c.verified, (c.tokens, (c.introduced, (c.issued, c.receipts)))))) <==> Fits(c)
  {
    hide ArchiveC, MemberTokenC, IntroducedC, IssuedC, ReceiptsC, CountedC, ArchiveFits, TokenFits, IntroducedFits, IssuedFits, Then;
    forall a ensures ArchiveC().ok(a) <==> ArchiveFits(a) { ArchiveOk(a); }
    forall t ensures MemberTokenC().ok(t) <==> TokenFits(t) { TokenOk(t); }
    forall i ensures IntroducedC().ok(i) <==> IntroducedFits(i) { IntroducedOk(i); }
    forall t ensures IssuedC().ok(t) <==> IssuedFits(t) { IssuedOk(t); }
    forall r ensures ReceiptsC().ok(r) <==> |r.conversation| == 16 { ReceiptsOk(r); }
    CountedOk(ArchiveC(), MAX_ARCHIVES, c.archives, ArchiveFits);
    CountedOk(BlobC(64), MAX_ENTRIES, c.verified, (b: Bytes) => |b| <= 64);
    CountedOk(MemberTokenC(), MAX_ENTRIES, c.tokens, TokenFits);
    CountedOk(IntroducedC(), MAX_ENTRIES, c.introduced, IntroducedFits);
    CountedOk(IssuedC(), MAX_ENTRIES, c.issued, IssuedFits);
    CountedOk(ReceiptsC(), MAX_ENTRIES, c.receipts, (r: Receipts) => |r.conversation| == 16);
    var a, b, t := CountedC(ArchiveC(), MAX_ARCHIVES), CountedC(BlobC(64), MAX_ENTRIES), CountedC(MemberTokenC(), MAX_ENTRIES);
    var i, s, r := CountedC(IntroducedC(), MAX_ENTRIES), CountedC(IssuedC(), MAX_ENTRIES), CountedC(ReceiptsC(), MAX_ENTRIES);
    ThenOk(s, r, c.issued, c.receipts);
    ThenOk(i, Then(s, r), c.introduced, (c.issued, c.receipts));
    ThenOk(t, Then(i, Then(s, r)), c.tokens, (c.introduced, (c.issued, c.receipts)));
    ThenOk(b, Then(t, Then(i, Then(s, r))), c.verified, (c.tokens, (c.introduced, (c.issued, c.receipts))));
    ThenOk(a, Then(b, Then(t, Then(i, Then(s, r)))), c.archives, (c.verified, (c.tokens, (c.introduced, (c.issued, c.receipts)))));
  }

  lemma StartOk()
    ensures StartC().ok((Magic(), VERSION))
  {
  }

  lemma ContentsOk(c: Contents)
    ensures ContentsC().ok(c) <==> Fits(c)
  {
    hide ListsC, StartC, Fits, Then;
    ListsOk(c);
    StartOk();
    ThenOk(StartC(), ListsC(), (Magic(), VERSION), (c.archives, (c.verified, (c.tokens, (c.introduced, (c.issued, c.receipts))))));
  }

  lemma ShortTexts(c: Contents)
    requires Fits(c)
    ensures TextsFit(c)
  {
    forall i | 0 <= i < |c.archives| ensures |c.archives[i].address| <= MAX_TEXT { assert ArchiveFits(c.archives[i]); }
  }

  // Contents within what the reader takes come back as they were...
  lemma KeyringRoundTrip(c: Contents)
    requires Fits(c)
    ensures Serialize(c).Some? && Parse(Serialize(c).value) == Some(c)
  {
    hide Lawful, ContentsC, Fits, TextsFit;
    ContentsLawful();
    ContentsOk(c);
    ShortTexts(c);
    WholeReads(ContentsC(), c);
  }

  // ...and every accepted keyring is the one form of its contents, so a changed keyring can be told by its bytes.
  lemma KeyringStrict(b: Bytes)
    requires Parse(b).Some?
    ensures Fits(Parse(b).value) && Serialize(Parse(b).value) == Some(b)
  {
    hide Lawful, ContentsC, Fits, TextsFit;
    ContentsLawful();
    WholeAccepts(ContentsC(), b);
    ContentsOk(Parse(b).value);
    ShortTexts(Parse(b).value);
  }
}
