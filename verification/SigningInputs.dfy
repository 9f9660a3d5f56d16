/**
 The byte strings that are signed or hashed for a relay and for a chat archive
 (protocol/relay_protocol.cpp). A signature or hash is only as good as its input: these say
 that an input determines everything that went into it, and that no input made for one
 purpose is ever an input for another.
 */
module SigningInputs {
  import opened Wire

  datatype Input =
    | HelloInput(nonce: Bytes, relayId: Bytes, version: int, challenge: Bytes)
    | RegisterInput(relayId: Bytes, mailboxId: Bytes, accessKey: Bytes, tokenHash: Bytes)
    | AuthInput(challenge: Bytes, relayId: Bytes, mailboxId: Bytes)
    | JoinInput(relayId: Bytes, archiveId: Bytes, publicKey: Bytes, tokenHash: Bytes)
    | ArchiveAuthInput(challenge: Bytes, relayId: Bytes, archiveId: Bytes, keyHash: Bytes)
    | DeleteInput(relayId: Bytes, archiveId: Bytes, scope: int, opId: Bytes, expiresAt: int, entryHashes: seq<Bytes>)
    | GenesisInput(archiveId: Bytes)
    | EntryInput(archiveId: Bytes, number: int, previous: Bytes, ciphertext: Bytes)

  function Label(i: Input): string {
    match i
    case HelloInput(_, _, _, _) => "pq-suite v3 relay hello"
    case RegisterInput(_, _, _, _) => "pq-suite v3 relay register"
    case AuthInput(_, _, _) => "pq-suite v3 relay auth"
    case JoinInput(_, _, _, _) => "pq-suite v3 archive join"
    case ArchiveAuthInput(_, _, _, _) => "pq-suite v3 archive auth"
    case DeleteInput(_, _, _, _, _, _) => "pq-suite v3 archive delete"
    case GenesisInput(_) => "pq-suite v3 archive genesis"
    case EntryInput(_, _, _, _) => "pq-suite v3 archive entry"
  }

  function Fields(i: Input): Bytes {
    match i
    case HelloInput(nonce, relayId, version, challenge) => Blob(relayId) + (U32(version) + (Blob(nonce) + Blob(challenge)))
    case RegisterInput(relayId, mailboxId, key, tokenHash) => Blob(relayId) + (Blob(mailboxId) + (Blob(key) + Blob(tokenHash)))
    case AuthInput(challenge, relayId, mailboxId) => Blob(relayId) + (Blob(mailboxId) + Blob(challenge))
    case JoinInput(relayId, archiveId, key, tokenHash) => Blob(relayId) + (Blob(archiveId) + (Blob(key) + Blob(tokenHash)))
    case ArchiveAuthInput(challenge, relayId, archiveId, keyHash) =>
      Blob(relayId) + (Blob(archiveId) + (Blob(keyHash) + Blob(challenge)))
    case DeleteInput(relayId, archiveId, scope, opId, expiresAt, hashes) =>
      Blob(relayId) + (Blob(archiveId) + (U32(scope) + (Blob(opId) + (U64(expiresAt) + (U32(|hashes|) + Blobs(hashes))))))
    case GenesisInput(archiveId) => Blob(archiveId)
    case EntryInput(archiveId, number, previous, ciphertext) =>
      Blob(archiveId) + (U64(number) + (Blob(previous) + Blob(ciphertext)))
  }

  function Encode(i: Input): Bytes {
    Blob(Ascii(Label(i))) + Fields(i)
  }

  // Every length fits the 32-bit prefix and every number its field.
  predicate Fits(i: Input) {
    match i
    case HelloInput(nonce, relayId, version, challenge) => Short(nonce) && Short(relayId) && 0 <= version < TWO32 && Short(challenge)
    case RegisterInput(relayId, mailboxId, key, tokenHash) => Short(relayId) && Short(mailboxId) && Short(key) && Short(tokenHash)
    case AuthInput(challenge, relayId, mailboxId) => Short(challenge) && Short(relayId) && Short(mailboxId)
    case JoinInput(relayId, archiveId, key, tokenHash) => Short(relayId) && Short(archiveId) && Short(key) && Short(tokenHash)
    case ArchiveAuthInput(challenge, relayId, archiveId, keyHash) =>
      Short(challenge) && Short(relayId) && Short(archiveId) && Short(keyHash)
    case DeleteInput(relayId, archiveId, scope, opId, expiresAt, hashes) =>
      && Short(relayId) && Short(archiveId) && 0 <= scope < TWO32 && Short(opId) && 0 <= expiresAt < TWO64
      && |hashes| < TWO32 && forall i :: 0 <= i < |hashes| ==> Short(hashes[i])
    case GenesisInput(archiveId) => Short(archiveId)
    case EntryInput(archiveId, number, previous, ciphertext) =>
      Short(archiveId) && 0 <= number < TWO64 && Short(previous) && Short(ciphertext)
  }

  lemma StripBlob(a: Bytes, x: Bytes, b: Bytes, y: Bytes)
    requires Short(a) && Short(b) && Blob(a) + x == Blob(b) + y
    ensures a == b && x == y
  {
    hide Blob, ReadBlob;
    BlobReads(a, TWO32, x);
    BlobReads(b, TWO32, y);
  }

  lemma StripLast(a: Bytes, b: Bytes)
    requires Short(a) && Short(b) && Blob(a) == Blob(b)
    ensures a == b
  {
    assert Blob(a) + [] == Blob(b) + [];
    StripBlob(a, [], b, []);
  }

  lemma StripU32(v: int, x: Bytes, w: int, y: Bytes)
    requires 0 <= v < TWO32 && 0 <= w < TWO32 && U32(v) + x == U32(w) + y
    ensures v == w && x == y
  {
    hide U32, ReadU32;
    U32Reads(v, x);
    U32Reads(w, y);
  }

  lemma StripU64(v: int, x: Bytes, w: int, y: Bytes)
    requires 0 <= v < TWO64 && 0 <= w < TWO64 && U64(v) + x == U64(w) + y
    ensures v == w && x == y
  {
    hide U64, ReadU64;
    U64Reads(v, x);
    U64Reads(w, y);
  }

  lemma {:induction false} StripBlobs(a: seq<Bytes>, b: seq<Bytes>)
    requires |a| == |b| && Blobs(a) == Blobs(b)
    requires forall i :: 0 <= i < |a| ==> Short(a[i]) && Short(b[i])
    ensures a == b
  {
    if a != [] {
      StripBlob(a[0], Blobs(a[1..]), b[0], Blobs(b[1..]));
      StripBlobs(a[1..], b[1..]);
      assert a == [a[0]] + a[1..] && b == [b[0]] + b[1..];
    }
  }

  // Anything written under a length-prefixed label is separated from anything written under
  // another, whatever follows the label. (The same holds for the labels of message records,
  // prekeys and identity bundles, whose bodies follow the label without a length of their own.)
  lemma LabelsSeparate(name: string, body: Bytes, name': string, body': Bytes)
    requires |name| < TWO32 && |name'| < TWO32
    requires Blob(Ascii(name)) + body == Blob(Ascii(name')) + body'
    ensures Ascii(name) == Ascii(name') && body == body'
  {
    StripBlob(Ascii(name), body, Ascii(name'), body');
  }

  lemma SameLabelSamePurpose(i: Input, j: Input)
    requires Ascii(Label(i)) == Ascii(Label(j))
    ensures Label(i) == Label(j)
    ensures i.DeleteInput? == j.DeleteInput? && i.EntryInput? == j.EntryInput? && i.GenesisInput? == j.GenesisInput?
    ensures i.HelloInput? == j.HelloInput? && i.RegisterInput? == j.RegisterInput? && i.AuthInput? == j.AuthInput?
    ensures i.JoinInput? == j.JoinInput? && i.ArchiveAuthInput? == j.ArchiveAuthInput?
  {
    var a, b := Label(i), Label(j);
    assert |a| == |b| == |Ascii(a)|;
    if |a| > 20 {
      assert Ascii(a)[12] == Ascii(b)[12] && Ascii(a)[20] == Ascii(b)[20];
    }
  }

  lemma FieldsInjective(i: Input, j: Input)
    requires Fits(i) && Fits(j) && Label(i) == Label(j) && Fields(i) == Fields(j)
    requires i.HelloInput? == j.HelloInput? && i.RegisterInput? == j.RegisterInput? && i.AuthInput? == j.AuthInput?
    requires i.JoinInput? == j.JoinInput? && i.ArchiveAuthInput? == j.ArchiveAuthInput?
    requires i.GenesisInput? == j.GenesisInput? && i.EntryInput? == j.EntryInput? && i.DeleteInput? == j.DeleteInput?
    ensures i == j
  {
    match i
    case HelloInput(n, r, v, c) =>
      var HelloInput(n', r', v', c') := j;
      StripBlob(r, U32(v) + (Blob(n) + Blob(c)), r', U32(v') + (Blob(n') + Blob(c')));
      StripU32(v, Blob(n) + Blob(c), v', Blob(n') + Blob(c'));
      StripBlob(n, Blob(c), n', Blob(c'));
      StripLast(c, c');
    case RegisterInput(r, m, k, t) =>
      var RegisterInput(r', m', k', t') := j;
      StripFour(r, m, k, t, r', m', k', t');
    case AuthInput(c, r, m) =>
      var AuthInput(c', r', m') := j;
      StripBlob(r, Blob(m) + Blob(c), r', Blob(m') + Blob(c'));
      StripBlob(m, Blob(c), m', Blob(c'));
      StripLast(c, c');
    case JoinInput(r, a, k, t) =>
      var JoinInput(r', a', k', t') := j;
      StripFour(r, a, k, t, r', a', k', t');
    case ArchiveAuthInput(c, r, a, k) =>
      var ArchiveAuthInput(c', r', a', k') := j;
      StripFour(r, a, k, c, r', a', k', c');
    case DeleteInput(_, _, _, _, _, _) => DeleteFieldsInjective(i, j);
    case GenesisInput(a) => StripLast(a, j.archiveId);
    case EntryInput(a, n, p, c) =>
      var EntryInput(a', n', p', c') := j;
      StripBlob(a, U64(n) + (Blob(p) + Blob(c)), a', U64(n') + (Blob(p') + Blob(c')));
      StripU64(n, Blob(p) + Blob(c), n', Blob(p') + Blob(c'));
      StripBlob(p, Blob(c), p', Blob(c'));
      StripLast(c, c');
  }

  lemma StripFour(a: Bytes, b: Bytes, c: Bytes, d: Bytes, a': Bytes, b': Bytes, c': Bytes, d': Bytes)
    requires Short(a) && Short(b) && Short(c) && Short(d) && Short(a') && Short(b') && Short(c') && Short(d')
    requires Blob(a) + (Blob(b) + (Blob(c) + Blob(d))) == Blob(a') + (Blob(b') + (Blob(c') + Blob(d')))
    ensures a == a' && b == b' && c == c' && d == d'
  {
    StripBlob(a, Blob(b) + (Blob(c) + Blob(d)), a', Blob(b') + (Blob(c') + Blob(d')));
    StripBlob(b, Blob(c) + Blob(d), b', Blob(c') + Blob(d'));
    StripBlob(c, Blob(d), c', Blob(d'));
    StripLast(d, d');
  }

  lemma DeleteFieldsInjective(i: Input, j: Input)
    requires Fits(i) && Fits(j) && i.DeleteInput? && j.DeleteInput? && Fields(i) == Fields(j)
    ensures i == j
  {
    var DeleteInput(r, a, s, o, e, h) := i;
    var DeleteInput(r', a', s', o', e', h') := j;
    var list, list' := U32(|h|) + Blobs(h), U32(|h'|) + Blobs(h');
    var order, order' := Blob(o) + (U64(e) + list), Blob(o') + (U64(e') + list');
    StripBlob(r, Blob(a) + (U32(s) + order), r', Blob(a') + (U32(s') + order'));
    StripBlob(a, U32(s) + order, a', U32(s') + order');
    StripU32(s, order, s', order');
    StripBlob(o, U64(e) + list, o', U64(e') + list');
    StripU64(e, list, e', list');
    StripU32(|h|, Blobs(h), |h'|, Blobs(h'));
    StripBlobs(h, h');
  }

  // An input is what it was made from: no two different requests, whether of the same purpose
  // or of different ones, ever have the same bytes signed or hashed.
  lemma InputsInjective(i: Input, j: Input)
    requires Fits(i) && Fits(j)
    ensures Encode(i) == Encode(j) <==> i == j
  {
    if Encode(i) == Encode(j) {
      LabelsSeparate(Label(i), Fields(i), Label(j), Fields(j));
      SameLabelSamePurpose(i, j);
      FieldsInjective(i, j);
    }
  }

  // The length bound is needed: a 2^32-byte name and an empty one are written with the same length.
  lemma LengthsWrap(long: Bytes)
    requires |long| == TWO32
    ensures Blob(long) == Blob([]) + long
  {
    assert U32(TWO32) == U32(0);
  }
}
