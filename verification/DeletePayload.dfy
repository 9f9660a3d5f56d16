/**
 The payload of a deletion request (delete_request_payload and parse_delete_request_payload in client/message_record.cpp).
 */
module DeletePayload {
  import opened Wire
  import opened Deletion

  const MAX_PAYLOAD := 4096

  datatype Info = Info(scope: int, op: Bytes, expires: int, entries: seq<Bytes>)

  type Parts = (int, (Bytes, (int, seq<Bytes>)))

  function FieldsC(): Codec<Info> {
    As(Then(U32C(), Then(Exact(OP_ID_BYTES, OP_ID_BYTES), Then(U64C(), ListC(Exact(HASH_BYTES, HASH_BYTES), 0, MAX_DELETE_ENTRIES)))),
       (p: Parts) => Info(p.0, p.1.0, p.1.1.0, p.1.1.1), (i: Info) => (i.scope, (i.op, (i.expires, i.entries))))
  }

  // A whole chat names no entries; otherwise one to sixty-four are named.
  predicate Counted(i: Info) {
    if i.scope == SCOPE_CHAT then i.entries == [] else i.scope == SCOPE_ENTRIES && 1 <= |i.entries| <= MAX_DELETE_ENTRIES
  }

  // The writer refuses what is out of range, but not an entry named twice.
  predicate Writable(i: Info) {
    Counted(i) && |i.op| == OP_ID_BYTES && 0 <= i.expires < TWO64 && forall k :: 0 <= k < |i.entries| ==> |i.entries[k]| == HASH_BYTES
  }

  function Write(i: Info): Option<Bytes> {
    if Writable(i) then Some(FieldsC().enc(i)) else None
  }

  function Parse(b: Bytes): Option<Info> {
    if |b| > MAX_PAYLOAD then None
    else
      match Whole(FieldsC(), b)
      case None => None
      case Some(i) => if Counted(i) && Distinct(i.entries) then Some(i) else None
  }

  lemma FieldsLawful()
    ensures Lawful(FieldsC())
  {
    hide Lawful, U32C, U64C, Exact, ListC, Then;
    U32Lawful();
    U64Lawful();
    ExactLawful(OP_ID_BYTES, OP_ID_BYTES);
    ExactLawful(HASH_BYTES, HASH_BYTES);
    ListLawful(Exact(HASH_BYTES, HASH_BYTES), 0, MAX_DELETE_ENTRIES);
    ThenLawful(U64C(), ListC(Exact(HASH_BYTES, HASH_BYTES), 0, MAX_DELETE_ENTRIES));
    ThenLawful(Exact(OP_ID_BYTES, OP_ID_BYTES), Then(U64C(), ListC(Exact(HASH_BYTES, HASH_BYTES), 0, MAX_DELETE_ENTRIES)));
    ThenLawful(U32C(), Then(Exact(OP_ID_BYTES, OP_ID_BYTES), Then(U64C(), ListC(Exact(HASH_BYTES, HASH_BYTES), 0, MAX_DELETE_ENTRIES))));
    AsLawful(Then(U32C(), Then(Exact(OP_ID_BYTES, OP_ID_BYTES), Then(U64C(), ListC(Exact(HASH_BYTES, HASH_BYTES), 0, MAX_DELETE_ENTRIES)))),
       (p: Parts) => Info(p.0, p.1.0, p.1.1.0, p.1.1.1), (i: Info) => (i.scope, (i.op, (i.expires, i.entries))));
  }

  lemma EntriesOk(xs: seq<Bytes>)
    requires |xs| <= MAX_DELETE_ENTRIES
    ensures ListC(Exact(HASH_BYTES, HASH_BYTES), 0, MAX_DELETE_ENTRIES).ok(xs) <==> forall k :: 0 <= k < |xs| ==> |xs[k]| == HASH_BYTES
  {
    forall k | 0 <= k < |xs| ensures Exact(HASH_BYTES, HASH_BYTES).ok(xs[k]) <==> |xs[k]| == HASH_BYTES {}
  }

  lemma FieldsOk(i: Info)
    ensures Counted(i) ==> (FieldsC().ok(i) <==> Writable(i))
  {
    if Counted(i) {
      EntriesOk(i.entries);
      var list := ListC(Exact(HASH_BYTES, HASH_BYTES), 0, MAX_DELETE_ENTRIES);
      hide ListC;
      assert Then(U64C(), list).ok((i.expires, i.entries)) <==> 0 <= i.expires < TWO64 && list.ok(i.entries);
      assert Then(Exact(OP_ID_BYTES, OP_ID_BYTES), Then(U64C(), list)).ok((i.op, (i.expires, i.entries))) <==> |i.op| == OP_ID_BYTES && Then(U64C(), list).ok((i.expires, i.entries));
    }
  }

  lemma {:induction false} EntriesLong(xs: seq<Bytes>)
    requires forall k :: 0 <= k < |xs| ==> |xs[k]| == HASH_BYTES
    ensures |EncAll(Exact(HASH_BYTES, HASH_BYTES), xs)| == 36 * |xs|
    decreases |xs|
  {
    if xs != [] { EntriesLong(xs[1..]); }
  }

  lemma PayloadShort(i: Info)
    requires Writable(i)
    ensures |FieldsC().enc(i)| <= MAX_PAYLOAD
  {
    EntriesLong(i.entries);
    hide EncAll;
    var list := ListC(Exact(HASH_BYTES, HASH_BYTES), 0, MAX_DELETE_ENTRIES);
    assert Then(U64C(), list).enc((i.expires, i.entries)) == U64(i.expires) + list.enc(i.entries);
    assert Then(Exact(OP_ID_BYTES, OP_ID_BYTES), Then(U64C(), list)).enc((i.op, (i.expires, i.entries))) == Blob(i.op) + (U64(i.expires) + list.enc(i.entries));
  }

  // Exactly what is in range is written, and it is read back exactly when no entry is named twice.
  lemma RequestRoundTrip(i: Info)
    ensures Write(i).Some? <==> Writable(i)
    ensures Writable(i) ==> (Parse(Write(i).value) == Some(i) <==> Distinct(i.entries))
  {
    hide Lawful, FieldsC, Distinct;
    if Writable(i) {
      FieldsLawful();
      FieldsOk(i);
      PayloadShort(i);
      WholeReads(FieldsC(), i);
    }
  }

  // Whatever is read is an order the protocol takes, and its bytes are the ones that would be written for it.
  lemma RequestStrict(b: Bytes)
    requires Parse(b).Some?
    ensures var i := Parse(b).value; ValidOrder(i.scope, i.op, i.entries) && Write(i) == Some(b)
  {
    hide Lawful, FieldsC, Distinct;
    FieldsLawful();
    WholeAccepts(FieldsC(), b);
    FieldsOk(Parse(b).value);
  }
}
