/**
 A chat's archive as its members see it: the hash chain over its entries
 (client/archive.cpp), what one device remembers of the chain it has checked
 (client/history_store.cpp), and how it takes in what an untrusted relay says
 (archive_catch_up and process_checkpoint of client/messaging_engine.cpp).

 SHA-256 is the parameter `sha`. Nothing is assumed of it except, where a result needs it,
 that the inputs actually hashed in the chains at hand do not collide.
 */
module Archive {
  import opened Wire
  import opened SigningInputs

  datatype Head = Head(number: int, hash: Bytes)
  datatype Entry = Entry(number: int, hash: Bytes, ciphertext: Bytes, tombstone: bool)

  // How an entry's number, the hash before it and its ciphertext make its hash.
  type Hasher = (int, Bytes, Bytes) -> Bytes

  // SHA-256 over the bytes an input is written as.
  function Digest(sha: Bytes -> Bytes): Input -> Bytes {
    (i: Input) => sha(Encode(i))
  }

  // entry_hash, for one archive.
  function EntryHash(digest: Input -> Bytes, id: Bytes): Hasher {
    (number: int, previous: Bytes, ciphertext: Bytes) => digest(EntryInput(id, number, previous, ciphertext))
  }

  // ---- The chain ----

  // The head just before entry i of a list that continues `from`.
  function Before(from: Head, es: seq<Entry>, i: nat): Head
    requires i <= |es|
  {
    if i == 0 then from else Head(es[i - 1].number, es[i - 1].hash)
  }

  function End(from: Head, es: seq<Entry>): Head {
    Before(from, es, |es|)
  }

  // Entry i follows the one before it: the next number (64-bit), and, unless its content is gone,
  // the hash of that content on top of the hash before.
  predicate Linked(h: Hasher, from: Head, es: seq<Entry>, i: nat)
    requires i < |es|
  {
    && es[i].number == (Before(from, es, i).number + 1) % TWO64
    && (es[i].tombstone || es[i].hash == h(es[i].number, Before(from, es, i).hash, es[i].ciphertext))
  }

  predicate Chained(h: Hasher, from: Head, es: seq<Entry>) {
    forall i :: 0 <= i < |es| ==> Linked(h, from, es, i)
  }

  function Verified(h: Hasher, from: Head, es: seq<Entry>): Option<Head> {
    if Chained(h, from, es) then Some(End(from, es)) else None
  }

  // verify_chain accepts exactly the lists in which every entry follows the one before.
  method VerifyChain(h: Hasher, from: Head, entries: seq<Entry>) returns (r: Option<Head>)
    ensures r == Verified(h, from, entries)
  {
    var head := from;
    var i := 0;
    while i < |entries|
      invariant 0 <= i <= |entries|
      invariant head == Before(from, entries, i)
      invariant forall j :: 0 <= j < i ==> Linked(h, from, entries, j)
    {
      var e := entries[i];
      if e.number != (head.number + 1) % TWO64 {
        assert !Linked(h, from, entries, i);
        return None;
      }
      if !e.tombstone && e.hash != h(e.number, head.hash, e.ciphertext) {
        assert !Linked(h, from, entries, i);
        return None;
      }
      head := Head(e.number, e.hash);
      i := i + 1;
    }
    return Some(head);
  }

  // Verifying a list that came in pieces is verifying the pieces in turn.
  lemma VerifiedInParts(h: Hasher, from: Head, a: seq<Entry>, b: seq<Entry>)
    ensures Verified(h, from, a + b) ==
            match Verified(h, from, a) case None => None case Some(mid) => Verified(h, mid, b)
  {
    var whole, mid := a + b, End(from, a);
    assert End(from, whole) == End(mid, b);
    forall i | 0 <= i < |a| ensures Linked(h, from, whole, i) == Linked(h, from, a, i) {}
    forall i | 0 <= i < |b| ensures Linked(h, from, whole, |a| + i) == Linked(h, mid, b, i) {
      assert Before(from, whole, |a| + i) == Before(mid, b, i);
    }
    if Chained(h, from, whole) {
      forall i | 0 <= i < |a| ensures Linked(h, from, a, i) { assert Linked(h, from, whole, i); }
      forall i | 0 <= i < |b| ensures Linked(h, mid, b, i) { assert Linked(h, from, whole, |a| + i); }
    } else {
      var i :| 0 <= i < |whole| && !Linked(h, from, whole, i);
      if i < |a| {
        assert !Linked(h, from, a, i);
      } else {
        assert whole[i] == b[i - |a|];
        assert !Linked(h, mid, b, i - |a|);
      }
    }
  }

  function HashAt(h: Hasher, from: Head, es: seq<Entry>, i: nat): Bytes
    requires i < |es|
  {
    h(es[i].number, Before(from, es, i).hash, es[i].ciphertext)
  }

  // No two different things hashed in these two chains have the same hash.
  ghost predicate NoCollision(h: Hasher, from: Head, es: seq<Entry>, from': Head, es': seq<Entry>) {
    forall i, j :: 0 <= i < |es| && 0 <= j < |es'| && HashAt(h, from, es, i) == HashAt(h, from', es', j) ==>
      es[i].number == es'[j].number && Before(from, es, i).hash == Before(from', es', j).hash && es[i].ciphertext == es'[j].ciphertext
  }

  predicate ContentHeld(es: seq<Entry>, k: int, m: int) {
    forall i :: k < i <= m && 0 <= i < |es| ==> !es[i].tombstone
  }

  // Two verified chains that meet at m are the same, hash by hash and content by content, all the way
  // back to the nearest tombstone in either.
  lemma {:induction false} AgreeBackwards(h: Hasher, from: Head, es: seq<Entry>, from': Head, es': seq<Entry>,
                                          k: int, m: nat)
    requires Chained(h, from, es) && Chained(h, from', es')
    requires NoCollision(h, from, es, from', es')
    requires -1 <= k <= m < |es| && m < |es'| && es[m].hash == es'[m].hash
    requires ContentHeld(es, k, m) && ContentHeld(es', k, m)
    ensures forall i :: k < i <= m ==> es[i] == es'[i]
    ensures if k == -1 then from.hash == from'.hash else es[k].hash == es'[k].hash
    decreases m - k
  {
    if k < m {
      assert Linked(h, from, es, m) && Linked(h, from', es', m);
      assert HashAt(h, from, es, m) == es[m].hash == es'[m].hash == HashAt(h, from', es', m);
      if m > 0 && k < m - 1 {
        AgreeBackwards(h, from, es, from', es', k, m - 1);
      }
    }
  }

  // A fork shows at every later entry that no tombstone hides it from.
  lemma ForkPersists(h: Hasher, from: Head, es: seq<Entry>, from': Head, es': seq<Entry>, k: nat, m: nat)
    requires Chained(h, from, es) && Chained(h, from', es')
    requires NoCollision(h, from, es, from', es')
    requires k <= m < |es| && m < |es'| && es[k].hash != es'[k].hash
    requires ContentHeld(es, k, m) && ContentHeld(es', k, m)
    ensures es[m].hash != es'[m].hash
  {
    if es[m].hash == es'[m].hash {
      AgreeBackwards(h, from, es, from', es', k, m);
    }
  }

  // The tombstone condition is needed: any other verified beginning of the same length goes with what
  // follows a tombstone, and from there on the two chains cannot be told apart by their hashes.
  lemma TombstoneHidesFork(h: Hasher, from: Head, es: seq<Entry>, other: seq<Entry>, t: nat)
    requires Chained(h, from, es) && Chained(h, from, other)
    requires |other| == t < |es| && es[t].tombstone
    requires End(from, other).number == Before(from, es, t).number
    ensures Chained(h, from, other + es[t..])
    ensures forall m :: t <= m < |es| ==> (other + es[t..])[m].hash == es[m].hash
  {
    var forged := other + es[t..];
    forall i | 0 <= i < |forged| ensures Linked(h, from, forged, i) {
      if i < t {
        assert Linked(h, from, other, i);
      } else {
        assert Linked(h, from, es, i) && forged[i] == es[i];
        if i == t { assert Before(from, forged, i) == End(from, other); }
      }
    }
  }

  // ---- What a device remembers ----

  // The archive's row, the hashes checked so far and the entries seen redacted.
  datatype Store = Store(number: int, hash: Bytes, chain: map<int, Bytes>, redacted: set<int>, checkpointSeen: int, warning: bool)

  function EmptyStore(): Store {
    Store(0, [], map[], {}, 0, false)
  }

  // Where a session starts: the stored head, or the genesis hash before any entry.
  function StoredHead(g: Bytes, st: Store): Head {
    Head(st.number, if st.hash == [] then g else st.hash)
  }

  // save_archive_hashes: a hash once saved for a number is never replaced.
  function SaveHashes(chain: map<int, Bytes>, es: seq<Entry>): map<int, Bytes>
    decreases |es|
  {
    if es == [] then chain
    else SaveHashes(if es[0].number in chain then chain else chain[es[0].number := es[0].hash], es[1..])
  }

  // set_archive_head: forwards only.
  function SetHead(st: Store, head: Head): Store {
    if st.number < head.number then st.(number := head.number, hash := head.hash) else st
  }

  function Tombstones(es: seq<Entry>): set<int> {
    set i | 0 <= i < |es| && es[i].tombstone :: es[i].number
  }

  datatype Outcome = Failed | Level | More

  // One round of archive_catch_up: the entries the relay sent after `head` and where it says the end is.
  function Take(h: Hasher, st: Store, head: Head, es: seq<Entry>, relayHead: Head): (Store, Head, Outcome) {
    match Verified(h, head, es)
    case None => (st.(warning := true), head, Failed)
    case Some(next) =>
      var kept := Kept(st, es, next);
      var outcome := Judge(es, next, relayHead);
      (if outcome == Failed then kept.(warning := true) else kept, next, outcome)
  }

  // What is remembered of entries that verified.
  function Kept(st: Store, es: seq<Entry>, next: Head): Store {
    SetHead(st.(chain := SaveHashes(st.chain, es), redacted := st.redacted + Tombstones(es)), next)
  }

  // What the relay says its end is must be the end of the entries it actually gave us.
  function Judge(es: seq<Entry>, next: Head, relayHead: Head): Outcome {
    if es == [] || next.number >= relayHead.number then
      if relayHead != next then Failed else Level
    else More
  }

  // What process_checkpoint does with a checkpoint whose sender, recipients and payload were accepted.
  function Checked(st: Store, number: int, hash: Bytes): Store {
    var seen := if st.checkpointSeen < number then st.(checkpointSeen := number) else st;
    if number in st.chain && st.chain[number] != hash then seen.(warning := true) else seen
  }

  // The device's table is exactly a chain that verifies from the archive's beginning.
  ghost predicate Holds(h: Hasher, g: Bytes, st: Store, es: seq<Entry>) {
    && |es| < TWO64
    && Chained(h, Head(0, g), es)
    && StoredHead(g, st) == End(Head(0, g), es)
    && Numbered(es, 0)
    && st.chain == HashTable(es)
  }

  // The hashes of entries 1, 2, ..., and of nothing else.
  function HashTable(es: seq<Entry>): map<int, Bytes> {
    if es == [] then map[] else HashTable(es[..|es| - 1])[|es| := es[|es| - 1].hash]
  }

  lemma {:induction false} TableAt(es: seq<Entry>, n: int)
    ensures n in HashTable(es) <==> 1 <= n <= |es|
    ensures 1 <= n <= |es| ==> HashTable(es)[n] == es[n - 1].hash
  {
    if es != [] { TableAt(es[..|es| - 1], n); }
  }

  predicate Numbered(es: seq<Entry>, base: nat) {
    forall i :: 0 <= i < |es| ==> es[i].number == base + 1 + i
  }

  lemma {:induction false} SaveExtends(es: seq<Entry>, sent: seq<Entry>)
    requires Numbered(sent, |es|)
    ensures SaveHashes(HashTable(es), sent) == HashTable(es + sent)
    decreases |sent|
  {
    if sent == [] {
      assert es + sent == es;
    } else {
      var more := es + [sent[0]];
      assert sent[0].number == |es| + 1;
      assert more[..|es|] == es;
      TableAt(es, |es| + 1);
      SaveExtends(more, sent[1..]);
      assert more + sent[1..] == es + sent;
    }
  }

  // Whatever the relay sends, a device goes on holding a verified chain: the old one, or the old one
  // and exactly what was sent.
  lemma TakeKeepsChain(h: Hasher, g: Bytes, st: Store, es: seq<Entry>, sent: seq<Entry>, relayHead: Head)
    requires Holds(h, g, st, es) && |es| + |sent| < TWO64
    requires forall i :: 0 <= i < |sent| ==> sent[i].hash != []
    ensures var (st', head', outcome) := Take(h, st, StoredHead(g, st), sent, relayHead);
            && head' == StoredHead(g, st')
            && (Chained(h, StoredHead(g, st), sent) ==> Holds(h, g, st', es + sent))
            && (!Chained(h, StoredHead(g, st), sent) ==> outcome == Failed && st'.warning && Holds(h, g, st', es))
            && (outcome == Level ==> relayHead == head')
            && (st.warning ==> st'.warning)
  {
    var head := StoredHead(g, st);
    if Chained(h, head, sent) {
      HoldsMore(h, g, st, es, sent);
    }
  }

  lemma HoldsMore(h: Hasher, g: Bytes, st: Store, es: seq<Entry>, sent: seq<Entry>)
    requires Holds(h, g, st, es) && |es| + |sent| < TWO64
    requires Chained(h, StoredHead(g, st), sent)
    requires forall i :: 0 <= i < |sent| ==> sent[i].hash != []
    ensures var st' := Kept(st, sent, End(StoredHead(g, st), sent));
            Holds(h, g, st', es + sent) && StoredHead(g, st') == End(StoredHead(g, st), sent)
  {
    var head := StoredHead(g, st);
    NumbersFollow(h, head, sent, |es|);
    SaveExtends(es, sent);
    NumberedMore(es, sent);
    ChainedMore(h, Head(0, g), es, sent);
  }

  lemma NumberedMore(es: seq<Entry>, sent: seq<Entry>)
    requires Numbered(es, 0) && Numbered(sent, |es|)
    ensures Numbered(es + sent, 0)
  {
  }

  lemma ChainedMore(h: Hasher, from: Head, a: seq<Entry>, b: seq<Entry>)
    requires Chained(h, from, a) && Chained(h, End(from, a), b)
    ensures Chained(h, from, a + b) && End(from, a + b) == End(End(from, a), b)
  {
    VerifiedInParts(h, from, a, b);
  }

  lemma {:induction false} NumbersFollow(h: Hasher, from: Head, es: seq<Entry>, base: nat)
    requires Chained(h, from, es) && from.number == base && base + |es| < TWO64
    ensures Numbered(es, base)
  {
    if es != [] {
      var most := es[..|es| - 1];
      forall i | 0 <= i < |most| ensures Linked(h, from, most, i) { assert Linked(h, from, es, i); }
      NumbersFollow(h, from, most, base);
      assert Linked(h, from, es, |es| - 1);
      assert forall i :: 0 <= i < |most| ==> es[i] == most[i];
    }
  }

  // Fork detection: two devices hold verified chains of one archive that differ at some entry. If the relay
  // redacted nothing after it, one device's checkpoint at any later entry makes the other raise a warning.
  lemma CheckpointExposesFork(h: Hasher, g: Bytes, mine: Store, es: seq<Entry>, es': seq<Entry>, k: nat, m: nat)
    requires Holds(h, g, mine, es) && Chained(h, Head(0, g), es')
    requires NoCollision(h, Head(0, g), es, Head(0, g), es')
    requires 1 <= k <= m <= |es| && m <= |es'|
    requires es[k - 1].hash != es'[k - 1].hash
    requires ContentHeld(es, k - 1, m - 1) && ContentHeld(es', k - 1, m - 1)
    ensures Checked(mine, m, es'[m - 1].hash).warning
  {
    ForkPersists(h, Head(0, g), es, Head(0, g), es', k - 1, m - 1);
    CheckpointCompared(mine, es, m, es'[m - 1].hash);
  }

  // A checkpoint warns exactly when it names an entry the device holds with another hash: no false alarms.
  lemma CheckpointCompared(mine: Store, es: seq<Entry>, m: int, hash: Bytes)
    requires mine.chain == HashTable(es)
    ensures Checked(mine, m, hash).warning <==> mine.warning || (1 <= m <= |es| && es[m - 1].hash != hash)
    ensures var seen := Checked(mine, m, hash).checkpointSeen; seen >= m && seen >= mine.checkpointSeen && (seen == m || seen == mine.checkpointSeen)
  {
    TableAt(es, m);
  }

  // ---- The device's own methods ----

  // What the relay answers to one fetch.
  datatype Answer = Answer(entries: seq<Entry>, head: Head)

  // What one round leaves: the store, the head, how it went, and the entries passed on (all that were
  // sent, or none if they do not verify).
  datatype Taken = Taken(st: Store, head: Head, outcome: Outcome, added: seq<Entry>)
  type Round = (Store, Head, Answer) -> Taken

  function TakeRound(h: Hasher): Round {
    (st: Store, head: Head, a: Answer) =>
      var (st', head', outcome) := Take(h, st, head, a.entries, a.head);
      Taken(st', head', outcome, if Chained(h, head, a.entries) then a.entries else [])
  }

  datatype CaughtUp = CaughtUp(ok: bool, st: Store, head: Head, added: seq<Entry>)

  // The whole of archive_catch_up against the answers a relay gives, until it is level, fails, or the
  // connection is lost.
  function CatchUpSpec(round: Round, st: Store, head: Head, answers: seq<Answer>): CaughtUp
    decreases |answers|
  {
    if answers == [] then CaughtUp(false, st, head, [])
    else
      var t := round(st, head, answers[0]);
      if t.outcome != More then CaughtUp(t.outcome == Level, t.st, t.head, t.added)
      else After(t.added, CatchUpSpec(round, t.st, t.head, answers[1..]))
  }

  function After(got: seq<Entry>, rest: CaughtUp): CaughtUp {
    rest.(added := got + rest.added)
  }

  lemma RoundOfVerified(h: Hasher, st: Store, head: Head, es: seq<Entry>, relayHead: Head)
    requires Chained(h, head, es)
    ensures var next := End(head, es); var outcome := Judge(es, next, relayHead);
            TakeRound(h)(st, head, Answer(es, relayHead)) ==
              Taken(if outcome == Failed then Kept(st, es, next).(warning := true) else Kept(st, es, next), next, outcome, es)
  {
  }

  lemma CatchUpStep(round: Round, st: Store, head: Head, answers: seq<Answer>, i: nat, got: seq<Entry>)
    requires i < |answers|
    ensures var t := round(st, head, answers[i]);
            After(got, CatchUpSpec(round, st, head, answers[i..])) ==
              if t.outcome != More then CaughtUp(t.outcome == Level, t.st, t.head, got + t.added)
              else After(got + t.added, CatchUpSpec(round, t.st, t.head, answers[i + 1..]))
  {
    var t := round(st, head, answers[i]);
    assert answers[i..][1..] == answers[i + 1..];
    var rest := CatchUpSpec(round, t.st, t.head, answers[i + 1..]);
    assert got + (t.added + rest.added) == got + t.added + rest.added;
  }

  function Sent(answers: seq<Answer>): nat {
    if answers == [] then 0 else |answers[0].entries| + Sent(answers[1..])
  }

  predicate HashGiven(a: Answer) {
    forall i :: 0 <= i < |a.entries| ==> a.entries[i].hash != []
  }

  predicate HashesGiven(answers: seq<Answer>) {
    answers == [] || (HashGiven(answers[0]) && HashesGiven(answers[1..]))
  }

  type Property = (Store, Head, seq<Entry>) -> bool

  // This round keeps the property.
  predicate RoundKeeps(round: Round, keeps: Property, limit: nat, st: Store, head: Head, es: seq<Entry>, a: Answer) {
    keeps(st, head, es) && HashGiven(a) && |es| + |a.entries| < limit ==>
      var t := round(st, head, a); keeps(t.st, t.head, es + t.added) && |t.added| <= |a.entries|
  }

  ghost predicate EveryRoundKeeps(round: Round, keeps: Property, limit: nat) {
    forall st, head, es, a :: RoundKeeps(round, keeps, limit, st, head, es, a)
  }

  // Whatever every round keeps, a whole catch-up keeps.
  lemma {:induction false} CatchUpKeeps(round: Round, keeps: Property, limit: nat, st: Store, head: Head, es: seq<Entry>, answers: seq<Answer>)
    requires EveryRoundKeeps(round, keeps, limit) && keeps(st, head, es) && HashesGiven(answers) && |es| + Sent(answers) < limit
    ensures var r := CatchUpSpec(round, st, head, answers); keeps(r.st, r.head, es + r.added)
    decreases |answers|
  {
    if answers == [] {
      assert es + [] == es;
    } else {
      var t := round(st, head, answers[0]);
      assert RoundKeeps(round, keeps, limit, st, head, es, answers[0]);
      hide EveryRoundKeeps;
      if t.outcome == More {
        CatchUpKeeps(round, keeps, limit, t.st, t.head, es + t.added, answers[1..]);
        var rest := CatchUpSpec(round, t.st, t.head, answers[1..]);
        assert es + (t.added + rest.added) == es + t.added + rest.added;
      }
    }
  }

  lemma RoundKeepsChain(h: Hasher, g: Bytes, st: Store, es: seq<Entry>, a: Answer)
    requires Holds(h, g, st, es) && |es| + |a.entries| < TWO64 && HashGiven(a)
    ensures var t := TakeRound(h)(st, StoredHead(g, st), a);
            Holds(h, g, t.st, es + t.added) && t.head == StoredHead(g, t.st) && |t.added| <= |a.entries|
  {
    TakeKeepsChain(h, g, st, es, a.entries, a.head);
    assert es + [] == es;
  }

  // Over a whole catch-up with any relay at all: what is returned is what was added, in order, to the chain
  // the device holds, and nothing that was held before is changed.
  lemma CatchUpKeepsChain(h: Hasher, g: Bytes, st: Store, es: seq<Entry>, answers: seq<Answer>)
    requires Holds(h, g, st, es) && HashesGiven(answers) && |es| + Sent(answers) < TWO64
    ensures var r := CatchUpSpec(TakeRound(h), st, StoredHead(g, st), answers);
            Holds(h, g, r.st, es + r.added) && r.head == StoredHead(g, r.st)
  {
    var keeps := (st: Store, head: Head, es: seq<Entry>) => Holds(h, g, st, es) && head == StoredHead(g, st);
    hide Holds;
    forall st, head, es, a ensures RoundKeeps(TakeRound(h), keeps, TWO64, st, head, es, a) {
      if keeps(st, head, es) && HashGiven(a) && |es| + |a.entries| < TWO64 { RoundKeepsChain(h, g, st, es, a); }
    }
    CatchUpKeeps(TakeRound(h), keeps, TWO64, st, StoredHead(g, st), es, answers);
  }

  // Over a whole catch-up with any relay, the numbers marked redacted are those marked before and those of the tombstones
  // handed on, and no others.
  lemma {:induction false} CatchUpMarks(h: Hasher, st: Store, head: Head, answers: seq<Answer>, n: int)
    ensures var r := CatchUpSpec(TakeRound(h), st, head, answers);
            n in r.st.redacted <==> n in st.redacted || Marked(r.added, n)
    decreases |answers|
  {
    hide Marked, TakeRound;
    NoneMarked(n);
    if answers != [] {
      var t := TakeRound(h)(st, head, answers[0]);
      RoundMarks(h, st, head, answers[0], n);
      CatchUpFirst(h, st, head, answers);
      if t.outcome == More {
        CatchUpMarks(h, t.st, t.head, answers[1..], n);
        MarkedInParts(t.added, CatchUpSpec(TakeRound(h), t.st, t.head, answers[1..]).added, n);
      }
    }
  }

  lemma CatchUpFirst(h: Hasher, st: Store, head: Head, answers: seq<Answer>)
    requires answers != []
    ensures var t := TakeRound(h)(st, head, answers[0]);
            CatchUpSpec(TakeRound(h), st, head, answers) ==
              if t.outcome != More then CaughtUp(t.outcome == Level, t.st, t.head, t.added)
              else After(t.added, CatchUpSpec(TakeRound(h), t.st, t.head, answers[1..]))
  {
  }

  lemma NoneMarked(n: int)
    ensures !Marked([], n)
  {
  }

  predicate Marked(es: seq<Entry>, n: int) {
    exists i :: 0 <= i < |es| && es[i].tombstone && es[i].number == n
  }

  lemma MarkedInParts(a: seq<Entry>, b: seq<Entry>, n: int)
    ensures Marked(a + b, n) <==> Marked(a, n) || Marked(b, n)
  {
    if Marked(a, n) {
      var i :| 0 <= i < |a| && a[i].tombstone && a[i].number == n;
      assert (a + b)[i] == a[i];
    }
    if Marked(b, n) {
      var i :| 0 <= i < |b| && b[i].tombstone && b[i].number == n;
      assert (a + b)[|a| + i] == b[i];
    }
  }

  lemma RoundMarks(h: Hasher, st: Store, head: Head, a: Answer, n: int)
    ensures var t := TakeRound(h)(st, head, a); n in t.st.redacted <==> n in st.redacted || Marked(t.added, n)
  {
    hide Chained, SaveHashes;
  }

  class ArchiveClient {
    const h: Hasher
    var number: int
    var hash: Bytes
    var chain: map<int, Bytes>
    var redacted: set<int>
    var checkpointSeen: int
    var warning: bool

    ghost function State(): Store
      reads this
    {
      Store(number, hash, chain, redacted, checkpointSeen, warning)
    }

    constructor (h: Hasher)
      ensures this.h == h && State() == EmptyStore()
    {
      this.h := h;
      number, hash, chain, redacted, checkpointSeen, warning := 0, [], map[], {}, 0, false;
    }

    method SaveArchiveHashes(entries: seq<Entry>)
      modifies this`chain
      ensures chain == SaveHashes(old(chain), entries)
    {
      var i := 0;
      while i < |entries|
        invariant 0 <= i <= |entries|
        invariant SaveHashes(chain, entries[i..]) == SaveHashes(old(chain), entries)
      {
        if entries[i].number !in chain { chain := chain[entries[i].number := entries[i].hash]; }
        i := i + 1;
      }
    }

    method MarkRedacted(entries: seq<Entry>)
      modifies this`redacted
      ensures redacted == old(redacted) + Tombstones(entries)
    {
      var i := 0;
      while i < |entries|
        invariant 0 <= i <= |entries|
        invariant redacted == old(redacted) + Tombstones(entries[..i])
      {
        assert entries[..i + 1] == entries[..i] + [entries[i]];
        if entries[i].tombstone { redacted := redacted + {entries[i].number}; }
        assert Tombstones(entries[..i + 1]) == Tombstones(entries[..i]) + (if entries[i].tombstone then {entries[i].number} else {});
        i := i + 1;
      }
      assert entries[..|entries|] == entries;
    }

    // One round; `added` is what it adds to the records returned.
    method TakeAnswer(head: Head, a: Answer) returns (next: Head, outcome: Outcome, added: seq<Entry>)
      modifies this
      ensures Taken(State(), next, outcome, added) == TakeRound(h)(old(State()), head, a)
    {
      var verified := VerifyChain(h, head, a.entries);
      if verified.None? {
        warning := true;
        return head, Failed, [];
      }
      next := verified.value;
      added := a.entries;
      MarkRedacted(a.entries);
      SaveArchiveHashes(a.entries);
      if number < next.number { number, hash := next.number, next.hash; }
      if a.entries == [] || next.number >= a.head.number {
        if a.head != next {
          warning := true;
          outcome := Failed;
        } else {
          outcome := Level;
        }
      } else {
        outcome := More;
      }
    }

    method CatchUp(start: Head, answers: seq<Answer>) returns (ok: bool, head: Head, added: seq<Entry>)
      modifies this
      ensures CaughtUp(ok, State(), head, added) == CatchUpSpec(TakeRound(h), old(State()), start, answers)
    {
      head, added := start, [];
      var i := 0;
      while i < |answers|
        invariant 0 <= i <= |answers|
        invariant CatchUpSpec(TakeRound(h), old(State()), start, answers) ==
                  After(added, CatchUpSpec(TakeRound(h), State(), head, answers[i..]))
      {
        CatchUpStep(TakeRound(h), State(), head, answers, i, added);
        var outcome, more;
        head, outcome, more := TakeAnswer(head, answers[i]);
        added := added + more;
        i := i + 1;
        if outcome != More { return outcome == Level, head, added; }
      }
      return false, head, added;
    }

    // process_checkpoint. `fromMember` and `forUs` are its membership and recipients checks; `info` the
    // parsed payload.
    method ProcessCheckpoint(fromMember: bool, forUs: bool, info: Option<(int, Bytes)>) returns (changed: bool)
      modifies this`checkpointSeen, this`warning
      ensures State() == if fromMember && forUs && info.Some? then Checked(old(State()), info.value.0, info.value.1) else old(State())
      ensures changed ==> State().warning
    {
      changed := false;
      if !fromMember || !forUs || info.None? { return; }
      var (n, h) := info.value;
      if checkpointSeen < n { checkpointSeen := n; }
      if n in chain && chain[n] != h {
        warning := true;
        changed := true;
      }
    }
  }

  // ---- The hash in use ----

  // Sizes as the decoder of an entry guarantees them.
  predicate Sized(from: Head, es: seq<Entry>) {
    Short(from.hash) && forall i :: 0 <= i < |es| ==> 0 <= es[i].number < TWO64 && Short(es[i].hash) && Short(es[i].ciphertext)
  }

  function InputAt(id: Bytes, from: Head, es: seq<Entry>, i: nat): Input
    requires i < |es|
  {
    EntryInput(id, es[i].number, Before(from, es, i).hash, es[i].ciphertext)
  }

  // SHA-256 does not map the bytes of two different inputs to the same hash.
  predicate Separates(sha: Bytes -> Bytes, a: Input, b: Input) {
    sha(Encode(a)) == sha(Encode(b)) ==> Encode(a) == Encode(b)
  }

  lemma DigestBinds(sha: Bytes -> Bytes, a: Input, b: Input)
    requires Fits(a) && Fits(b) && Separates(sha, a, b)
    ensures Digest(sha)(a) == Digest(sha)(b) ==> a == b
  {
    InputsInjective(a, b);
  }

  lemma HasherBinds(digest: Input -> Bytes, id: Bytes, from: Head, es: seq<Entry>, from': Head, es': seq<Entry>)
    requires forall i, j :: 0 <= i < |es| && 0 <= j < |es'| && digest(InputAt(id, from, es, i)) == digest(InputAt(id, from', es', j)) ==>
               InputAt(id, from, es, i) == InputAt(id, from', es', j)
    ensures NoCollision(EntryHash(digest, id), from, es, from', es')
  {
    var h := EntryHash(digest, id);
    forall i, j | 0 <= i < |es| && 0 <= j < |es'| && HashAt(h, from, es, i) == HashAt(h, from', es', j)
      ensures InputAt(id, from, es, i) == InputAt(id, from', es', j)
    {
      assert HashAt(h, from, es, i) == digest(InputAt(id, from, es, i));
      assert HashAt(h, from', es', j) == digest(InputAt(id, from', es', j));
    }
  }

  // If SHA-256 does not collide on the bytes hashed for two chains of an archive, then a hash in them
  // fixes the number, the hash before and the ciphertext it was made from.
  lemma ShaBinds(sha: Bytes -> Bytes, id: Bytes, from: Head, es: seq<Entry>, from': Head, es': seq<Entry>)
    requires Short(id) && Sized(from, es) && Sized(from', es')
    requires forall i, j :: 0 <= i < |es| && 0 <= j < |es'| ==> Separates(sha, InputAt(id, from, es, i), InputAt(id, from', es', j))
    ensures NoCollision(EntryHash(Digest(sha), id), from, es, from', es')
  {
    forall i, j | 0 <= i < |es| && 0 <= j < |es'| && Digest(sha)(InputAt(id, from, es, i)) == Digest(sha)(InputAt(id, from', es', j))
      ensures InputAt(id, from, es, i) == InputAt(id, from', es', j)
    {
      DigestBinds(sha, InputAt(id, from, es, i), InputAt(id, from', es', j));
    }
    HasherBinds(Digest(sha), id, from, es, from', es');
  }
}
