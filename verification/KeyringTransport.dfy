/**
 The keyring's way to and from the relay, in chunks (put_keyring and get_keyring in client/relay_client.cpp,
 decode_keyring_chunk in protocol/relay_protocol.cpp).
 */
module KeyringTransport {
  import opened Wire

  const CHUNK := 48 * 1024
  const MAX_KEYRING := 16 * 1024 * 1024

  datatype Chunk = Chunk(total: int, index: int, count: int, data: Bytes)

  // The chunks a keyring of this size takes.
  function CountFor(total: int): int {
    (total + CHUNK - 1) / CHUNK
  }

  // decode_keyring_chunk's checks: the answer that there is none, or a chunk of exactly the size its place demands.
  predicate Good(c: Chunk) {
    if c.total == 0 then c.index == 0 && c.count == 0 && c.data == []
    else
      && c.total <= MAX_KEYRING && c.count == CountFor(c.total) && c.index < c.count
      && |c.data| == if c.index + 1 < c.count then CHUNK else c.total - CHUNK * (c.count - 1)
  }

  function RawC(): Codec<Chunk> {
    As(Then(U32C(), Then(U32C(), Then(U32C(), BlobC(CHUNK)))),
       (x: (int, (int, (int, Bytes)))) => Chunk(x.0, x.1.0, x.1.1.0, x.1.1.1), (c: Chunk) => (c.total, (c.index, (c.count, c.data))))
  }

  function ChunkC(): Codec<Chunk> {
    Where(RawC(), Good)
  }

  function EncodeChunk(c: Chunk): Bytes {
    ChunkC().enc(c)
  }

  function DecodeChunk(b: Bytes): Option<Chunk> {
    Whole(ChunkC(), b)
  }

  lemma ChunkLawful()
    ensures Lawful(ChunkC())
  {
    hide Lawful, U32C, BlobC, Then;
    U32Lawful();
    BlobLawful(CHUNK);
    ThenLawful(U32C(), BlobC(CHUNK));
    ThenLawful(U32C(), Then(U32C(), BlobC(CHUNK)));
    ThenLawful(U32C(), Then(U32C(), Then(U32C(), BlobC(CHUNK))));
    AsLawful(Then(U32C(), Then(U32C(), Then(U32C(), BlobC(CHUNK)))),
       (x: (int, (int, (int, Bytes)))) => Chunk(x.0, x.1.0, x.1.1.0, x.1.1.1), (c: Chunk) => (c.total, (c.index, (c.count, c.data))));
    WhereLawful(RawC(), Good);
  }

  lemma ChunkReads(c: Chunk)
    requires Good(c) && 0 <= c.total && 0 <= c.index
    ensures DecodeChunk(EncodeChunk(c)) == Some(c)
  {
    ChunkLawful();
    ChunkOk(c);
    hide Lawful, ChunkC;
    WholeReads(ChunkC(), c);
  }

  lemma ChunkOk(c: Chunk)
    requires Good(c) && 0 <= c.total && 0 <= c.index
    ensures ChunkC().ok(c)
  {
    assert Then(U32C(), BlobC(CHUNK)).ok((c.count, c.data));
    assert Then(U32C(), Then(U32C(), BlobC(CHUNK))).ok((c.index, (c.count, c.data)));
    assert RawC().ok(c);
  }

  // ---- Sending ----

  function ChunkAt(blob: Bytes, i: nat): Chunk {
    var from := i * CHUNK;
    var to := if |blob| < from + CHUNK then |blob| else from + CHUNK;
    Chunk(|blob|, i, CountFor(|blob|), if from <= to <= |blob| then blob[from..to] else [])
  }

  predicate Sendable(blob: Bytes) {
    1 <= |blob| <= MAX_KEYRING
  }

  lemma CountExact(total: nat)
    requires 1 <= total
    ensures 1 <= CountFor(total) && CHUNK * (CountFor(total) - 1) < total <= CHUNK * CountFor(total)
  {
  }

  // Every chunk sent is one the other side accepts.
  lemma SentIsAccepted(blob: Bytes, i: nat)
    requires Sendable(blob) && i < CountFor(|blob|)
    ensures Good(ChunkAt(blob, i)) && DecodeChunk(EncodeChunk(ChunkAt(blob, i))) == Some(ChunkAt(blob, i))
  {
    CountExact(|blob|);
    ChunkReads(ChunkAt(blob, i));
  }

  function Sent(blob: Bytes, n: nat): seq<Bytes> {
    seq(n, i requires 0 <= i < n => EncodeChunk(ChunkAt(blob, i)))
  }

  lemma SentMore(blob: Bytes, n: nat)
    ensures Sent(blob, n + 1) == Sent(blob, n) + [EncodeChunk(ChunkAt(blob, n))]
  {
    hide EncodeChunk, ChunkAt;
  }

  lemma SentNone(blob: Bytes)
    ensures Sent(blob, 0) == []
  {
  }

  lemma PieceAt(blob: Bytes, i: nat)
    requires Sendable(blob) && i < CountFor(|blob|)
    ensures var from := i * CHUNK;
            var to := if |blob| < from + CHUNK then |blob| else from + CHUNK;
            from <= to <= |blob| && ChunkAt(blob, i) == Chunk(|blob|, i, CountFor(|blob|), blob[from..to])
            && blob[..from] + ChunkAt(blob, i).data == blob[..to] && (i + 1 < CountFor(|blob|) <==> to < |blob|)
  {
    CountExact(|blob|);
    hide CountFor;
  }

  method CutPiece(blob: Bytes, i: nat) returns (c: Chunk)
    requires Sendable(blob) && i < CountFor(|blob|)
    ensures c == ChunkAt(blob, i)
  {
    hide CountFor, ChunkAt;
    PieceAt(blob, i);
    var from := i * CHUNK;
    var to := if |blob| < from + CHUNK then |blob| else from + CHUNK;
    return Chunk(|blob|, i, CountFor(|blob|), blob[from..to]);
  }

  method PutKeyring(blob: Bytes) returns (messages: Option<seq<Bytes>>)
    ensures messages == if Sendable(blob) then Some(Sent(blob, CountFor(|blob|))) else None
  {
    if |blob| == 0 || |blob| > MAX_KEYRING { return None; }
    CountExact(|blob|);
    hide EncodeChunk, ChunkAt, Sent, CountFor;
    var count := CountFor(|blob|);
    var i: nat, sent: seq<Bytes> := 0, [];
    SentNone(blob);
    while i < count
      invariant 0 <= i <= count && sent == Sent(blob, i)
    {
      var c := CutPiece(blob, i);
      SentMore(blob, i);
      sent := sent + [EncodeChunk(c)];
      i := i + 1;
    }
    return Some(sent);
  }

  // ---- Receiving ----

  datatype Got = Failed | NoKeyring | Keyring(blob: Bytes)

  // get_keyring over the relay's answers, after some have been taken; running out of answers is a lost connection.
  function Collect(replies: seq<Bytes>, total: int, count: int, next: nat, blob: Bytes): Got
    decreases |replies|
  {
    if replies == [] then Failed
    else
      match DecodeChunk(replies[0])
      case None => Failed
      case Some(c) =>
        if c.count == 0 then if next != 0 then Failed else NoKeyring
        else
          var (t, n) := if next == 0 then (c.total, c.count) else (total, count);
          if c.index != next || c.total != t || c.count != n then Failed
          else if next + 1 == n then Keyring(blob + c.data)
          else Collect(replies[1..], t, n, next + 1, blob + c.data)
  }

  function Get(replies: seq<Bytes>): Got {
    Collect(replies, 0, 0, 0, [])
  }

  lemma {:induction false} CollectRest(blob: Bytes, from: nat)
    requires Sendable(blob) && from < CountFor(|blob|)
    ensures Collect(Sent(blob, CountFor(|blob|))[from..], |blob|, CountFor(|blob|), from, blob[..from * CHUNK]) == Keyring(blob)
    decreases CountFor(|blob|) - from
  {
    hide EncodeChunk, DecodeChunk, ChunkAt, CountFor;
    var count := CountFor(|blob|);
    var all, c := Sent(blob, count), ChunkAt(blob, from);
    SentIsAccepted(blob, from);
    PieceAt(blob, from);
    assert all[from..][0] == EncodeChunk(c) && all[from..][1..] == all[from + 1..];
    if from + 1 < count {
      CollectRest(blob, from + 1);
    }
  }

  // The first answer says how long the keyring is and how many pieces it has.
  lemma FirstDecides(replies: seq<Bytes>, total: int, count: int)
    ensures Collect(replies, total, count, 0, []) == Get(replies)
  {
    hide DecodeChunk;
  }

  // What was put is what is got.
  lemma KeyringReturns(blob: Bytes)
    requires Sendable(blob)
    ensures Get(Sent(blob, CountFor(|blob|))) == Keyring(blob)
  {
    CountExact(|blob|);
    hide CountFor, Sent, Collect;
    CollectRest(blob, 0);
    var all := Sent(blob, CountFor(|blob|));
    assert all[0..] == all && blob[..0] == [];
    FirstDecides(all, |blob|, CountFor(|blob|));
  }

  lemma DecodedGood(b: Bytes)
    requires DecodeChunk(b).Some?
    ensures var c := DecodeChunk(b).value; Good(c) && 0 <= c.total && 0 <= c.index && 0 <= c.count
  {
    ChunkLawful();
    hide Lawful;
    WholeAccepts(ChunkC(), b);
    var c := DecodeChunk(b).value;
    assert RawC().ok(c) && Then(U32C(), Then(U32C(), Then(U32C(), BlobC(CHUNK)))).ok((c.total, (c.index, (c.count, c.data))));
    assert Then(U32C(), Then(U32C(), BlobC(CHUNK))).ok((c.index, (c.count, c.data)));
    assert Then(U32C(), BlobC(CHUNK)).ok((c.count, c.data));
  }

  // Whatever a relay sends, a keyring is only ever taken whole: as long as its first chunk announced.
  lemma {:induction false} TakenWhole(replies: seq<Bytes>, total: int, count: int, next: nat, blob: Bytes)
    requires Collect(replies, total, count, next, blob).Keyring? && |blob| == CHUNK * next && (next > 0 ==> count == CountFor(total) && next < count)
    ensures var t := if next == 0 then DecodeChunk(replies[0]).value.total else total;
            1 <= t <= MAX_KEYRING && |Collect(replies, total, count, next, blob).blob| == t
    decreases |replies|
  {
    hide DecodeChunk;
    DecodedGood(replies[0]);
    var c := DecodeChunk(replies[0]).value;
    if next + 1 != c.count {
      TakenWhole(replies[1..], c.total, c.count, next + 1, blob + c.data);
    }
  }

  lemma DecodedIsEncoded(b: Bytes)
    requires DecodeChunk(b).Some?
    ensures b == EncodeChunk(DecodeChunk(b).value)
  {
    ChunkLawful();
    hide Lawful, ChunkC;
    WholeAccepts(ChunkC(), b);
  }

  // A chunk that fits its place, with its bytes at that place of the keyring, is the chunk that would be sent.
  lemma ChunkIs(c: Chunk, blob: Bytes)
    requires Good(c) && 0 <= c.index && 1 <= c.total == |blob| && CHUNK * c.index + |c.data| <= |blob|
    requires blob[CHUNK * c.index..CHUNK * c.index + |c.data|] == c.data
    ensures c == ChunkAt(blob, c.index)
  {
    CountExact(|blob|);
    hide CountFor;
  }

  // Whatever is taken, every answer was the chunk that sending it would give at that place.
  lemma {:induction false} TakenIsSent(replies: seq<Bytes>, total: int, count: int, next: nat, blob: Bytes, i: nat)
    requires Collect(replies, total, count, next, blob).Keyring? && |blob| == CHUNK * next && (next > 0 ==> count == CountFor(total) && next < count)
    ensures var got := Collect(replies, total, count, next, blob).blob;
            && |blob| < |got| && got[..|blob|] == blob
            && (next <= i < CountFor(|got|) ==> i - next < |replies| && replies[i - next] == EncodeChunk(ChunkAt(got, i)))
    decreases |replies|
  {
    hide DecodeChunk, EncodeChunk, ChunkAt;
    DecodedGood(replies[0]);
    DecodedIsEncoded(replies[0]);
    var c, got := DecodeChunk(replies[0]).value, Collect(replies, total, count, next, blob).blob;
    CountExact(c.total);
    TakenWhole(replies, total, count, next, blob);
    if next + 1 != c.count {
      TakenIsSent(replies[1..], c.total, c.count, next + 1, blob + c.data, i);
      assert got[..|blob + c.data|][..|blob|] == blob;
      assert got[..|blob + c.data|][|blob|..] == c.data;
    }
    assert got[CHUNK * next..CHUNK * next + |c.data|] == c.data;
    ChunkIs(c, got);
  }

  // A keyring is got exactly when the answers begin with what putting it sends.
  lemma GotExactly(replies: seq<Bytes>, blob: Bytes)
    ensures Get(replies) == Keyring(blob) <==> Sendable(blob) && Sent(blob, CountFor(|blob|)) <= replies
  {
    hide EncodeChunk, ChunkAt, CountFor, Collect;
    if Get(replies) == Keyring(blob) {
      TakenFirst(replies);
      CountExact(|blob|);
      var sent := Sent(blob, CountFor(|blob|));
      forall i | 0 <= i < |sent| ensures i < |replies| && replies[i] == sent[i] { TakenIsSent(replies, 0, 0, 0, [], i); }
      TakenIsSent(replies, 0, 0, 0, [], |sent| - 1);
      assert replies[..|sent|] == sent;
    }
    if Sendable(blob) { CountExact(|blob|); }
    if Sendable(blob) && Sent(blob, CountFor(|blob|)) <= replies {
      KeyringReturns(blob);
      var n := CountFor(|blob|);
      assert replies == Sent(blob, n) + replies[|Sent(blob, n)|..];
      MoreIsIgnored(Sent(blob, n), replies[|Sent(blob, n)|..], 0, 0, 0, []);
    }
  }

  lemma TakenFirst(replies: seq<Bytes>)
    requires Get(replies).Keyring?
    ensures Sendable(Get(replies).blob)
  {
    TakenWhole(replies, 0, 0, 0, []);
  }

  // Answers after the last chunk are not looked at.
  lemma {:induction false} MoreIsIgnored(replies: seq<Bytes>, more: seq<Bytes>, total: int, count: int, next: nat, blob: Bytes)
    requires Collect(replies, total, count, next, blob).Keyring?
    ensures Collect(replies + more, total, count, next, blob) == Collect(replies, total, count, next, blob)
    decreases |replies|
  {
    hide DecodeChunk;
    assert (replies + more)[0] == replies[0] && (replies + more)[1..] == replies[1..] + more;
    var c := DecodeChunk(replies[0]).value;
    if next + 1 != c.count { MoreIsIgnored(replies[1..], more, c.total, c.count, next + 1, blob + c.data); }
  }

  method GetKeyring(replies: seq<Bytes>) returns (got: Got)
    ensures got == Get(replies)
  {
    hide DecodeChunk;
    var k, total, count, next: nat, blob := 0, 0, 0, 0, [];
    assert replies[0..] == replies;
    while k < |replies|
      invariant 0 <= k <= |replies| && Get(replies) == Collect(replies[k..], total, count, next, blob)
    {
      assert replies[k..][0] == replies[k] && replies[k..][1..] == replies[k + 1..];
      var c := DecodeChunk(replies[k]);
      if c.None? { return Failed; }
      if c.value.count == 0 {
        if next != 0 { return Failed; }
        return NoKeyring;
      }
      if next == 0 { total, count := c.value.total, c.value.count; }
      if c.value.index != next || c.value.total != total || c.value.count != count { return Failed; }
      blob := blob + c.value.data;
      next := next + 1;
      if next == count { return Keyring(blob); }
      k := k + 1;
    }
    return Failed;
  }
}
