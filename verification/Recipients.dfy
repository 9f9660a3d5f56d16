/**
 Hashes over lists of people (recipients_hash_for and conversation_id_for in client/message_record.cpp): what is hashed
 depends on who is in the list, and on nothing else.
 */
module Recipients {
  import opened Wire

  // ---- The order of byte strings ----

  predicate AtMost(a: Bytes, b: Bytes) {
    if a == [] then true
    else if b == [] then false
    else if a[0] != b[0] then a[0] < b[0]
    else AtMost(a[1..], b[1..])
  }

  lemma {:induction false} Total(a: Bytes, b: Bytes)
    ensures AtMost(a, b) || AtMost(b, a)
    ensures AtMost(a, b) && AtMost(b, a) ==> a == b
    decreases |a|
  {
    if a != [] && b != [] && a[0] == b[0] {
      Total(a[1..], b[1..]);
      assert a == [a[0]] + a[1..] && b == [b[0]] + b[1..];
    }
  }

  lemma {:induction false} Transitive(a: Bytes, b: Bytes, c: Bytes)
    requires AtMost(a, b) && AtMost(b, c)
    ensures AtMost(a, c)
    decreases |a|
  {
    if a != [] && a[0] == b[0] == c[0] { Transitive(a[1..], b[1..], c[1..]); }
  }

  predicate Sorted(xs: seq<Bytes>) {
    forall i, j :: 0 <= i < j < |xs| ==> AtMost(xs[i], xs[j])
  }

  function Insert(x: Bytes, xs: seq<Bytes>): seq<Bytes> {
    if xs == [] || AtMost(x, xs[0]) then [x] + xs else [xs[0]] + Insert(x, xs[1..])
  }

  function Sort(xs: seq<Bytes>): seq<Bytes> {
    if xs == [] then [] else Insert(xs[0], Sort(xs[1..]))
  }

  lemma Split(xs: seq<Bytes>)
    requires xs != []
    ensures multiset(xs) == multiset{xs[0]} + multiset(xs[1..])
  {
    assert xs == [xs[0]] + xs[1..];
  }

  lemma Put(x: Bytes, xs: seq<Bytes>)
    ensures multiset([x] + xs) == multiset{x} + multiset(xs)
  {
  }

  lemma {:induction false} InsertKeeps(x: Bytes, xs: seq<Bytes>)
    ensures multiset(Insert(x, xs)) == multiset{x} + multiset(xs)
    decreases |xs|
  {
    hide AtMost;
    Put(x, xs);
    if xs != [] {
      Split(xs);
      InsertKeeps(x, xs[1..]);
      Put(xs[0], Insert(x, xs[1..]));
    }
  }

  lemma SortedPut(x: Bytes, xs: seq<Bytes>)
    requires Sorted(xs) && forall y :: y in xs ==> AtMost(x, y)
    ensures Sorted([x] + xs)
  {
    hide AtMost;
  }

  lemma FirstLeast(xs: seq<Bytes>)
    requires xs != [] && Sorted(xs)
    ensures forall y :: y in xs ==> AtMost(xs[0], y)
  {
    Same(xs[0]);
    hide AtMost;
  }

  lemma {:induction false} InsertSorts(x: Bytes, xs: seq<Bytes>)
    requires Sorted(xs)
    ensures Sorted(Insert(x, xs))
    decreases |xs|
  {
    hide AtMost;
    if xs == [] {
    } else if AtMost(x, xs[0]) {
      FirstLeast(xs);
      forall y | y in xs ensures AtMost(x, y) { Transitive(x, xs[0], y); }
      SortedPut(x, xs);
    } else {
      Total(x, xs[0]);
      FirstLeast(xs);
      InsertSorts(x, xs[1..]);
      InsertKeeps(x, xs[1..]);
      var rest := Insert(x, xs[1..]);
      forall y | y in rest ensures AtMost(xs[0], y) {
        assert y in multiset(rest);
        if y != x { assert y in xs[1..]; }
      }
      SortedPut(xs[0], rest);
    }
  }

  lemma {:induction false} SortSorts(xs: seq<Bytes>)
    ensures Sorted(Sort(xs)) && multiset(Sort(xs)) == multiset(xs)
    decreases |xs|
  {
    if xs != [] {
      hide AtMost, Sorted;
      SortSorts(xs[1..]);
      InsertSorts(xs[0], Sort(xs[1..]));
      InsertKeeps(xs[0], Sort(xs[1..]));
      Split(xs);
    }
  }

  // There is only one way to sort: any sorted arrangement of the same people is this one.
  lemma {:induction false} SortedUnique(a: seq<Bytes>, b: seq<Bytes>)
    requires Sorted(a) && Sorted(b) && multiset(a) == multiset(b)
    ensures a == b
    decreases |a|
  {
    if a == [] {
      assert |b| == |multiset(b)|;
    } else {
      hide AtMost;
      assert a[0] in multiset(b);
      FirstsEqual(a, b);
      Split(a);
      Split(b);
      TakeAway(a[0], multiset(a[1..]), multiset(b[1..]));
      SortedUnique(a[1..], b[1..]);
      assert a == [a[0]] + a[1..] && b == [b[0]] + b[1..];
    }
  }

  lemma TakeAway(x: Bytes, a: multiset<Bytes>, b: multiset<Bytes>)
    requires multiset{x} + a == multiset{x} + b
    ensures a == b
  {
    assert a == multiset{x} + a - multiset{x} && b == multiset{x} + b - multiset{x};
  }

  lemma FirstsEqual(a: seq<Bytes>, b: seq<Bytes>)
    requires a != [] && b != [] && Sorted(a) && Sorted(b) && multiset(a) == multiset(b)
    ensures a[0] == b[0]
  {
    hide AtMost;
    assert a[0] in multiset(b) && b[0] in multiset(a);
    var i :| 0 <= i < |b| && b[i] == a[0];
    var j :| 0 <= j < |a| && a[j] == b[0];
    Same(a[0]);
    Same(b[0]);
    Total(a[0], b[0]);
  }

  lemma {:induction false} Same(a: Bytes)
    ensures AtMost(a, a)
    decreases |a|
  {
    if a != [] { Same(a[1..]); }
  }

  // ---- What is hashed ----

  predicate AllShort(xs: seq<Bytes>) {
    |xs| < TWO32 && forall i :: 0 <= i < |xs| ==> Short(xs[i])
  }

  function RecipientsInput(people: seq<Bytes>): Bytes {
    Blob(Ascii("pq-suite v3 recipients")) + (U32(|people|) + Blobs(Sort(people)))
  }

  lemma ListInjective(a: seq<Bytes>, b: seq<Bytes>)
    requires AllShort(a) && AllShort(b) && U32(|a|) + Blobs(a) == U32(|b|) + Blobs(b)
    ensures a == b
  {
    hide Lawful;
    var max := TWO32 - 1;
    var c := ListC(BlobC(max), 0, max);
    BlobLawful(max);
    ListLawful(BlobC(max), 0, max);
    BlobsAreEncAll(a, max);
    BlobsAreEncAll(b, max);
    ListOk(a);
    ListOk(b);
    WholeReads(c, a);
    WholeReads(c, b);
  }

  lemma ListOk(xs: seq<Bytes>)
    requires AllShort(xs)
    ensures ListC(BlobC(TWO32 - 1), 0, TWO32 - 1).ok(xs)
  {
    forall i | 0 <= i < |xs| ensures BlobC(TWO32 - 1).ok(xs[i]) {}
  }

  lemma SortShort(xs: seq<Bytes>)
    requires AllShort(xs)
    ensures AllShort(Sort(xs)) && |Sort(xs)| == |xs|
  {
    hide Sort, Sorted, AtMost;
    SortSorts(xs);
    assert |Sort(xs)| == |multiset(Sort(xs))| == |multiset(xs)| == |xs|;
    forall i | 0 <= i < |Sort(xs)| ensures Short(Sort(xs)[i]) {
      assert Sort(xs)[i] in multiset(Sort(xs));
      assert Sort(xs)[i] in xs;
    }
  }

  // The same people, in any order: the same bytes. Anyone added, left out or repeated: other bytes.
  lemma SamePeople(a: seq<Bytes>, b: seq<Bytes>)
    requires AllShort(a) && AllShort(b)
    ensures RecipientsInput(a) == RecipientsInput(b) <==> multiset(a) == multiset(b)
  {
    hide Sort, Sorted, Blobs, U32, AllShort, Ascii;
    SortSorts(a);
    SortSorts(b);
    SortShort(a);
    SortShort(b);
    if multiset(a) == multiset(b) {
      SortedUnique(Sort(a), Sort(b));
    }
    if RecipientsInput(a) == RecipientsInput(b) {
      Strip(Blob(Ascii("pq-suite v3 recipients")), U32(|a|) + Blobs(Sort(a)), U32(|b|) + Blobs(Sort(b)));
      ListInjective(Sort(a), Sort(b));
    }
  }

  lemma Strip(tag: Bytes, x: Bytes, y: Bytes)
    requires tag + x == tag + y
    ensures x == y
  {
    assert x == (tag + x)[|tag|..] && y == (tag + y)[|tag|..];
  }

  // A hash that does not confuse these two inputs tells exactly whether the lists name the same people.
  lemma RecipientsHashTells(sha: Bytes -> Bytes, a: seq<Bytes>, b: seq<Bytes>)
    requires AllShort(a) && AllShort(b)
    requires sha(RecipientsInput(a)) == sha(RecipientsInput(b)) ==> RecipientsInput(a) == RecipientsInput(b)
    ensures sha(RecipientsInput(a)) == sha(RecipientsInput(b)) <==> multiset(a) == multiset(b)
  {
    hide RecipientsInput;
    SamePeople(a, b);
  }

  function ConversationInput(a: Bytes, b: Bytes): Bytes {
    var low, high := if AtMost(a, b) && a != b then a else b, if AtMost(a, b) && a != b then b else a;
    Blob(Ascii("pq-suite v3 one-to-one conversation")) + (Blob(low) + Blob(high))
  }

  // Both people make the same conversation ID input, and no other pair does.
  lemma SamePair(a: Bytes, b: Bytes, c: Bytes, d: Bytes)
    requires Short(a) && Short(b) && Short(c) && Short(d)
    ensures ConversationInput(a, b) == ConversationInput(c, d) <==> (a == c && b == d) || (a == d && b == c)
  {
    hide AtMost, Blob, ReadBlob, Ascii;
    Total(a, b);
    Total(c, d);
    Same(a);
    if ConversationInput(a, b) == ConversationInput(c, d) {
      var low, high := if AtMost(a, b) && a != b then a else b, if AtMost(a, b) && a != b then b else a;
      var low', high' := if AtMost(c, d) && c != d then c else d, if AtMost(c, d) && c != d then d else c;
      Strip(Blob(Ascii("pq-suite v3 one-to-one conversation")), Blob(low) + Blob(high), Blob(low') + Blob(high'));
      BlobReads(low, TWO32, Blob(high));
      BlobReads(low', TWO32, Blob(high'));
      BlobReads(high, TWO32, []);
      BlobReads(high', TWO32, []);
    }
  }
}
