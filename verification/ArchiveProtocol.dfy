/**
 Several devices and one honest relay working on the same archive at the same time
 (archive_sync and archive_append of client/messaging_engine.cpp against the store and
 session of server/).

 Every action is one atomic step of one party, and a run is any sequence of actions, so every interleaving is
 covered: several sessions of one device, replies that are lost, and redactions at any moment. A fetch takes two
 steps, because the relay reads the entries and then, separately, the head.
 */
module ArchiveProtocol {
  import opened Wire
  import opened Archive

  const FETCH_LIMIT := 100
  const APPEND_ATTEMPTS := 10

  datatype Phase =
    | Fetching                              // about to ask for entries after the head
    | GotEntries(entries: seq<Entry>)       // has the entries, not yet the relay's head
    | UpToDate                              // level with the relay: a sync ends here, an append goes on
    | Awaiting(newHead: Head, blob: Bytes)  // the relay has appended the blob; its reply is on the way

  // One call of archive_sync or archive_append: its own idea of the head, and what it has passed on.
  datatype Session = Session(device: nat, start: int, head: Head, phase: Phase, added: seq<Entry>, attempt: nat)

  // `granted` are the numbers appends were given, `posted` the checkpoints members have made.
  datatype World = World(log: seq<Entry>, stores: map<nat, Store>, sessions: map<nat, Session>, granted: seq<int>, posted: set<(int, Bytes)>)

  datatype Action =
    | Join(device: nat)
    | Open(s: nat, device: nat)
    | ReadEntries(s: nat)
    | ReadHead(s: nat)
    | Append(s: nat, blob: Bytes)
    | Reply(s: nat)
    | Drop(s: nat)
    | Post(device: nat)
    | Read(device: nat, checkpoint: (int, Bytes))
    | Redact(number: int)

  // ---- The relay ----

  function RelayHead(g: Bytes, log: seq<Entry>): Head {
    End(Head(0, g), log)
  }

  // Entries numbered from + 1 onwards, at most `limit` of them.
  function Fetch(log: seq<Entry>, from: int): seq<Entry> {
    if 0 <= from <= |log| then log[from..if from + FETCH_LIMIT < |log| then from + FETCH_LIMIT else |log|] else []
  }

  // The relay makes the hash itself, on the head the sender named.
  function NextEntry(h: Hasher, head: Head, blob: Bytes): Entry {
    Entry(head.number + 1, h(head.number + 1, head.hash, blob), blob, false)
  }

  function Redacted(e: Entry): Entry {
    e.(ciphertext := [], tombstone := true)
  }

  // ---- One step ----

  function Close(w: World, s: nat): World {
    w.(sessions := w.sessions - {s})
  }

  function With(w: World, s: nat, x: Session): World {
    w.(sessions := w.sessions[s := x])
  }

  // The rest of a round, once the relay's head is known.
  function FinishRound(h: Hasher, g: Bytes, w: World, s: nat): World
    requires s in w.sessions && w.sessions[s].phase.GotEntries? && w.sessions[s].device in w.stores
  {
    var x := w.sessions[s];
    var t := TakeRound(h)(w.stores[x.device], x.head, Answer(x.phase.entries, RelayHead(g, w.log)));
    var w' := w.(stores := w.stores[x.device := t.st]);
    match t.outcome
    case Failed => Close(w', s)
    case Level => With(w', s, x.(head := t.head, added := x.added + t.added, phase := UpToDate))
    case More => With(w', s, x.(head := t.head, added := x.added + t.added, phase := Fetching))
  }

  // The compare-and-swap: the entry goes in only on the head it was made for. An empty blob and the last 64-bit
  // number are refused.
  function TryAppend(h: Hasher, g: Bytes, w: World, s: nat, blob: Bytes): World
    requires s in w.sessions
  {
    var x := w.sessions[s];
    if blob == [] || x.head.number >= TWO64 - 1 then Close(w, s)
    else if RelayHead(g, w.log) != x.head then
      if x.attempt + 1 < APPEND_ATTEMPTS then With(w, s, x.(phase := Fetching, attempt := x.attempt + 1)) else Close(w, s)
    else
      var e := NextEntry(h, x.head, blob);
      With(w.(log := w.log + [e], granted := w.granted + [e.number]), s, x.(phase := Awaiting(Head(e.number, e.hash), blob)))
  }

  // The reply is checked against the entry the device made before it is remembered.
  function TakeReply(h: Hasher, w: World, s: nat): World
    requires s in w.sessions && w.sessions[s].phase.Awaiting? && w.sessions[s].device in w.stores
  {
    var x := w.sessions[s];
    var e := NextEntry(h, x.head, x.phase.blob);
    if x.phase.newHead != Head(e.number, e.hash) then Close(w, s)
    else
      var st := w.stores[x.device];
      Close(w.(stores := w.stores[x.device := Kept(st, [e], x.phase.newHead)]), s)
  }

  predicate Ready(w: World, s: nat, phase: Phase -> bool) {
    s in w.sessions && w.sessions[s].device in w.stores && phase(w.sessions[s].phase)
  }

  function Do(h: Hasher, g: Bytes, w: World, a: Action): World {
    match a
    case Join(d) => if d in w.stores then w else w.(stores := w.stores[d := EmptyStore()])
    case Open(s, d) =>
      if s in w.sessions || d !in w.stores then w
      else With(w, s, Session(d, w.stores[d].number, StoredHead(g, w.stores[d]), Fetching, [], 0))
    case ReadEntries(s) =>
      if !Ready(w, s, (p: Phase) => p.Fetching?) then w
      else With(w, s, w.sessions[s].(phase := GotEntries(Fetch(w.log, w.sessions[s].head.number))))
    case ReadHead(s) => if Ready(w, s, (p: Phase) => p.GotEntries?) then FinishRound(h, g, w, s) else w
    case Append(s, blob) => if Ready(w, s, (p: Phase) => p.UpToDate?) then TryAppend(h, g, w, s, blob) else w
    case Reply(s) => if Ready(w, s, (p: Phase) => p.Awaiting?) then TakeReply(h, w, s) else w
    case Drop(s) => Close(w, s)
    case Post(d) => if d in w.stores && w.stores[d].number > 0 then w.(posted := w.posted + {(w.stores[d].number, w.stores[d].hash)}) else w
    case Read(d, p) => if d in w.stores && p in w.posted then w.(stores := w.stores[d := Checked(w.stores[d], p.0, p.1)]) else w
    case Redact(n) => if 1 <= n <= |w.log| then w.(log := w.log[n - 1 := Redacted(w.log[n - 1])]) else w
  }

  function Run(h: Hasher, g: Bytes, w: World, actions: seq<Action>): World
    decreases |actions|
  {
    if actions == [] then w else Run(h, g, Do(h, g, w, actions[0]), actions[1..])
  }

  function Start(): World {
    World([], map[], map[], [], {})
  }

  // ---- What every step keeps ----

  predicate LogOk(h: Hasher, g: Bytes, log: seq<Entry>) {
    && |log| < TWO64 && Chained(h, Head(0, g), log) && Numbered(log, 0)
    && forall i :: 0 <= i < |log| ==> log[i].hash != []
  }

  function Prefix(log: seq<Entry>, n: int): seq<Entry> {
    if 0 <= n <= |log| then log[..n] else log
  }

  // A device's checked head and table are those of a beginning of the relay's log.
  predicate StoreOk(g: Bytes, log: seq<Entry>, st: Store) {
    && 0 <= st.number <= |log| && (st.number > 0 ==> st.hash != [])
    && StoredHead(g, st) == End(Head(0, g), Prefix(log, st.number))
    && st.chain == HashTable(Prefix(log, st.number))
  }

  // What a device was handed for an entry of the log: the same place and hash, and the same content unless
  // one of the two has been redacted.
  predicate Same(e: Entry, f: Entry) {
    e.number == f.number && e.hash == f.hash && (e.tombstone || f.tombstone || e.ciphertext == f.ciphertext)
  }

  predicate SamePart(es: seq<Entry>, log: seq<Entry>, from: int) {
    0 <= from && from + |es| <= |log| && forall i :: 0 <= i < |es| ==> Same(es[i], log[from + i])
  }

  predicate PhaseOk(h: Hasher, log: seq<Entry>, head: Head, phase: Phase) {
    match phase
    case Fetching => true
    case UpToDate => true
    case GotEntries(es) => Chained(h, head, es) && SamePart(es, log, head.number) && |es| <= FETCH_LIMIT
    case Awaiting(newHead, blob) =>
      && 0 <= head.number < |log|
      && newHead.number == head.number + 1 && newHead.hash == h(newHead.number, head.hash, blob)
      && Same(Entry(newHead.number, newHead.hash, blob, false), log[head.number])
  }

  predicate SessionOk(h: Hasher, g: Bytes, log: seq<Entry>, stores: map<nat, Store>, x: Session) {
    && x.device in stores
    && 0 <= x.start <= x.head.number <= stores[x.device].number
    && x.head.number <= |log| && x.head == End(Head(0, g), Prefix(log, x.head.number))
    && |x.added| == x.head.number - x.start && SamePart(x.added, log, x.start)
    && PhaseOk(h, log, x.head, x.phase)
  }

  predicate GrantedOk(log: seq<Entry>, granted: seq<int>) {
    forall i :: 0 <= i < |granted| ==> 1 <= granted[i] <= |log| && forall j :: 0 <= j < i ==> granted[j] < granted[i]
  }

  // A checkpoint names an entry of the log and its hash.
  predicate PostedOk(log: seq<Entry>, posted: set<(int, Bytes)>) {
    forall p :: p in posted ==> 1 <= p.0 <= |log| && log[p.0 - 1].hash == p.1
  }

  ghost predicate Inv(h: Hasher, g: Bytes, w: World) {
    && LogOk(h, g, w.log)
    && (forall d :: d in w.stores ==> StoreOk(g, w.log, w.stores[d]))
    && (forall s :: s in w.sessions ==> SessionOk(h, g, w.log, w.stores, w.sessions[s]))
    && GrantedOk(w.log, w.granted) && PostedOk(w.log, w.posted)
  }

  // The log only grows, and an entry only changes by being redacted.
  predicate Grew(log: seq<Entry>, log': seq<Entry>) {
    |log| <= |log'| && forall i :: 0 <= i < |log| ==> log'[i] == log[i] || log'[i] == Redacted(log[i])
  }

  // No device ever forgets an archive or moves its checked head back.
  predicate Forward(stores: map<nat, Store>, stores': map<nat, Store>) {
    forall d :: d in stores ==> d in stores' && stores[d].number <= stores'[d].number
  }

  // The hash function gives real hashes: never the empty string that stands for "no entry yet".
  ghost predicate Hashes(h: Hasher) {
    forall n, p, c :: h(n, p, c) != []
  }

  // ---- Frames: a grown log is still what devices and sessions hold ----

  lemma {:induction false} SameTable(a: seq<Entry>, b: seq<Entry>)
    requires |a| == |b| && forall i :: 0 <= i < |a| ==> a[i].hash == b[i].hash
    ensures HashTable(a) == HashTable(b)
    decreases |a|
  {
    if a != [] { SameTable(a[..|a| - 1], b[..|b| - 1]); }
  }

  lemma GrewPrefix(g: Bytes, log: seq<Entry>, log': seq<Entry>, n: int)
    requires Grew(log, log') && 0 <= n <= |log|
    ensures End(Head(0, g), Prefix(log, n)) == End(Head(0, g), Prefix(log', n))
    ensures HashTable(Prefix(log, n)) == HashTable(Prefix(log', n))
  {
    var a, b := Prefix(log, n), Prefix(log', n);
    forall i | 0 <= i < n ensures a[i].hash == b[i].hash && a[i].number == b[i].number {
      assert a[i] == log[i] && b[i] == log'[i];
    }
    SameTable(a, b);
  }

  lemma StoreFrame(g: Bytes, log: seq<Entry>, log': seq<Entry>, st: Store)
    requires StoreOk(g, log, st) && Grew(log, log')
    ensures StoreOk(g, log', st)
  {
    GrewPrefix(g, log, log', st.number);
  }

  lemma SamePartFrame(es: seq<Entry>, log: seq<Entry>, log': seq<Entry>, from: int)
    requires SamePart(es, log, from) && Grew(log, log')
    ensures SamePart(es, log', from)
  {
    forall i | 0 <= i < |es| ensures Same(es[i], log'[from + i]) {
      assert Same(es[i], log[from + i]);
    }
  }

  lemma SessionFrame(h: Hasher, g: Bytes, log: seq<Entry>, log': seq<Entry>, stores: map<nat, Store>, stores': map<nat, Store>, x: Session)
    requires SessionOk(h, g, log, stores, x) && Grew(log, log')
    requires x.device in stores' && stores[x.device].number <= stores'[x.device].number
    ensures SessionOk(h, g, log', stores', x)
  {
    GrewPrefix(g, log, log', x.head.number);
    SamePartFrame(x.added, log, log', x.start);
    match x.phase
    case GotEntries(es) => SamePartFrame(es, log, log', x.head.number);
    case _ =>
  }

  lemma InvFrame(h: Hasher, g: Bytes, w: World, w': World)
    requires Inv(h, g, w) && LogOk(h, g, w'.log) && Grew(w.log, w'.log) && w'.stores == w.stores && w'.posted == w.posted
    requires GrantedOk(w'.log, w'.granted)
    requires forall s :: s in w'.sessions ==>
               (s in w.sessions && w'.sessions[s] == w.sessions[s]) || SessionOk(h, g, w'.log, w'.stores, w'.sessions[s])
    ensures Inv(h, g, w')
  {
    forall d | d in w'.stores ensures StoreOk(g, w'.log, w'.stores[d]) { StoreFrame(g, w.log, w'.log, w.stores[d]); }
    forall s | s in w'.sessions ensures SessionOk(h, g, w'.log, w'.stores, w'.sessions[s]) {
      if !SessionOk(h, g, w'.log, w'.stores, w'.sessions[s]) {
        SessionFrame(h, g, w.log, w'.log, w.stores, w'.stores, w.sessions[s]);
      }
    }
  }

  // A step that only changes device d's store, forwards, and session s.
  lemma InvStore(h: Hasher, g: Bytes, w: World, w': World, d: nat)
    requires Inv(h, g, w) && w'.log == w.log && w'.granted == w.granted && w'.posted == w.posted
    requires d in w.stores && d in w'.stores && w'.stores == w.stores[d := w'.stores[d]]
    requires StoreOk(g, w.log, w'.stores[d]) && w.stores[d].number <= w'.stores[d].number
    requires forall s :: s in w'.sessions ==>
               (s in w.sessions && w'.sessions[s] == w.sessions[s]) || SessionOk(h, g, w'.log, w'.stores, w'.sessions[s])
    ensures Inv(h, g, w')
  {
    forall s | s in w'.sessions ensures SessionOk(h, g, w'.log, w'.stores, w'.sessions[s]) {
      if !SessionOk(h, g, w'.log, w'.stores, w'.sessions[s]) {
        SessionFrame(h, g, w.log, w.log, w.stores, w'.stores, w.sessions[s]);
      }
    }
  }

  // ---- Each action keeps the invariant ----

  lemma SamePartTail(es: seq<Entry>, log: seq<Entry>, from: int)
    requires SamePart(es, log, from) && es != []
    ensures 0 <= from < from + |es| <= |log| && SamePart(es[1..], log, from + 1) && Same(es[0], log[from])
  {
    forall i | 0 <= i < |es| - 1 ensures Same(es[1..][i], log[from + 1 + i]) {
      assert es[1..][i] == es[i + 1] && Same(es[i + 1], log[from + (i + 1)]);
    }
  }

  lemma TableStep(log: seq<Entry>, n: nat)
    requires n < |log|
    ensures HashTable(log[..n])[n + 1 := log[n].hash] == HashTable(log[..n + 1])
    ensures n + 1 !in HashTable(log[..n])
  {
    assert log[..n + 1][..n] == log[..n];
    TableAt(log[..n], n + 1);
  }

  lemma SaveStep(chain: map<int, Bytes>, es: seq<Entry>, chain': map<int, Bytes>)
    requires es != []
    requires chain' == if es[0].number in chain then chain else chain[es[0].number := es[0].hash]
    ensures SaveHashes(chain, es) == SaveHashes(chain', es[1..])
  {
  }

  // Hashes taken from any part of the log that starts inside the table leave a table of the log.
  lemma {:induction false} SaveOverlap(log: seq<Entry>, n: nat, es: seq<Entry>, from: int)
    requires SamePart(es, log, from) && from <= n <= |log| && Numbered(log, 0)
    ensures SaveHashes(HashTable(log[..n]), es) == HashTable(log[..if n < from + |es| then from + |es| else n])
    decreases |es|
  {
    hide SamePart, HashTable;
    if es != [] {
      SamePartTail(es, log, from);
      assert es[0].number == from + 1;
      if from < n {
        TableAt(log[..n], from + 1);
        SaveStep(HashTable(log[..n]), es, HashTable(log[..n]));
        SaveOverlap(log, n, es[1..], from + 1);
      } else {
        TableStep(log, n);
        SaveStep(HashTable(log[..n]), es, HashTable(log[..n + 1]));
        SaveOverlap(log, n + 1, es[1..], from + 1);
      }
    }
  }

  lemma EndOfPart(g: Bytes, log: seq<Entry>, head: Head, es: seq<Entry>)
    requires 0 <= head.number <= |log| && head == End(Head(0, g), Prefix(log, head.number))
    requires SamePart(es, log, head.number)
    ensures End(head, es) == End(Head(0, g), Prefix(log, head.number + |es|))
  {
    if es != [] {
      assert Same(es[|es| - 1], log[head.number + |es| - 1]);
    }
  }

  lemma StoreTakes(g: Bytes, log: seq<Entry>, st: Store, es: seq<Entry>, from: int)
    requires Numbered(log, 0) && (forall i :: 0 <= i < |log| ==> log[i].hash != []) && StoreOk(g, log, st)
    requires SamePart(es, log, from) && from <= st.number
    ensures var st' := Kept(st, es, End(Head(0, g), Prefix(log, from + |es|)));
            StoreOk(g, log, st') && st.number <= st'.number && from + |es| <= st'.number && st'.warning == st.warning
  {
    var n := from + |es|;
    HeadNumber(g, log, n);
    if st.number < n { HashNonEmpty(g, log, n); }
    SaveOverlap(log, st.number, es, from);
  }

  // A round on an honest log: the entries verify, and the outcome depends only on how far the log has got.
  lemma HonestRound(h: Hasher, g: Bytes, log: seq<Entry>, st: Store, head: Head, es: seq<Entry>)
    requires LogOk(h, g, log) && StoreOk(g, log, st)
    requires 0 <= head.number <= st.number && head == End(Head(0, g), Prefix(log, head.number))
    requires PhaseOk(h, log, head, GotEntries(es))
    ensures var t := TakeRound(h)(st, head, Answer(es, RelayHead(g, log)));
            && t.added == es && t.head.number == head.number + |es|
            && t.head == End(Head(0, g), Prefix(log, t.head.number))
            && StoreOk(g, log, t.st) && st.number <= t.st.number && t.head.number <= t.st.number
            && (t.outcome == Failed <==> es == [] && head.number < |log|)
            && (t.outcome == More <==> es != [] && head.number + |es| < |log|)
            && (t.outcome == Level ==> t.head == RelayHead(g, log))
            && (t.st.warning <==> st.warning || t.outcome == Failed)
  {
    hide TakeRound, Chained, Judge, Kept, HashTable;
    var next := End(head, es);
    EndOfPart(g, log, head, es);
    HonestJudgement(g, log, es, head.number, next);
    RoundOfVerified(h, st, head, es, RelayHead(g, log));
    StoreTakes(g, log, st, es, head.number);
  }

  lemma HonestJudgement(g: Bytes, log: seq<Entry>, es: seq<Entry>, from: int, next: Head)
    requires Numbered(log, 0) && 0 <= from && from + |es| <= |log| && next == End(Head(0, g), Prefix(log, from + |es|))
    ensures next.number == from + |es|
    ensures Judge(es, next, RelayHead(g, log)) == Failed <==> es == [] && from < |log|
    ensures Judge(es, next, RelayHead(g, log)) == More <==> es != [] && from + |es| < |log|
    ensures Judge(es, next, RelayHead(g, log)) == Level ==> next == RelayHead(g, log)
  {
    HeadNumber(g, log, from + |es|);
    HeadNumber(g, log, |log|);
    assert Prefix(log, |log|) == log;
  }

  lemma HeadNumber(g: Bytes, log: seq<Entry>, n: int)
    requires Numbered(log, 0) && 0 <= n <= |log|
    ensures End(Head(0, g), Prefix(log, n)).number == n
  {
  }

  lemma HashNonEmpty(g: Bytes, log: seq<Entry>, n: int)
    requires 0 < n <= |log| && forall i :: 0 <= i < |log| ==> log[i].hash != []
    ensures End(Head(0, g), Prefix(log, n)).hash != []
  {
  }

  lemma KeepJoin(h: Hasher, g: Bytes, w: World, d: nat)
    requires Inv(h, g, w) && d !in w.stores
    ensures Inv(h, g, w.(stores := w.stores[d := EmptyStore()]))
  {
    var w' := w.(stores := w.stores[d := EmptyStore()]);
    assert Prefix(w.log, 0) == [];
    forall s | s in w'.sessions ensures SessionOk(h, g, w'.log, w'.stores, w'.sessions[s]) {
      SessionFrame(h, g, w.log, w.log, w.stores, w'.stores, w.sessions[s]);
    }
  }

  lemma FetchedIsChained(h: Hasher, g: Bytes, log: seq<Entry>, head: Head)
    requires LogOk(h, g, log) && 0 <= head.number <= |log| && head == End(Head(0, g), Prefix(log, head.number))
    ensures PhaseOk(h, log, head, GotEntries(Fetch(log, head.number)))
  {
    var n, es := head.number, Fetch(log, head.number);
    var m := n + |es|;
    assert log == log[..n] + es + log[m..];
    VerifiedInParts(h, Head(0, g), log[..n] + es, log[m..]);
    VerifiedInParts(h, Head(0, g), log[..n], es);
  }

  lemma KeepReadEntries(h: Hasher, g: Bytes, w: World, s: nat)
    requires Inv(h, g, w) && Ready(w, s, (p: Phase) => p.Fetching?)
    ensures Inv(h, g, Do(h, g, w, ReadEntries(s)))
  {
    hide StoreOk, SamePart, Chained, Fetch, End, Prefix;
    var x := w.sessions[s];
    FetchedIsChained(h, g, w.log, x.head);
    InvFrame(h, g, w, With(w, s, x.(phase := GotEntries(Fetch(w.log, x.head.number)))));
  }

  lemma SamePartJoin(a: seq<Entry>, b: seq<Entry>, log: seq<Entry>, from: int)
    requires SamePart(a, log, from) && SamePart(b, log, from + |a|)
    ensures SamePart(a + b, log, from)
  {
    forall i | 0 <= i < |a + b| ensures Same((a + b)[i], log[from + i]) {
      if i >= |a| { assert Same(b[i - |a|], log[from + |a| + (i - |a|)]); }
    }
  }

  lemma KeepReadHead(h: Hasher, g: Bytes, w: World, s: nat)
    requires Inv(h, g, w) && Ready(w, s, (p: Phase) => p.GotEntries?)
    ensures Inv(h, g, FinishRound(h, g, w, s)) && Forward(w.stores, FinishRound(h, g, w, s).stores)
  {
    hide StoreOk, SamePart, Chained, LogOk, End, Prefix, TakeRound, GrantedOk;
    var x := w.sessions[s];
    var es := x.phase.entries;
    HonestRound(h, g, w.log, w.stores[x.device], x.head, es);
    SamePartJoin(x.added, es, w.log, x.start);
    InvStore(h, g, w, FinishRound(h, g, w, s), x.device);
  }

  lemma AppendedLog(h: Hasher, g: Bytes, log: seq<Entry>, blob: Bytes)
    requires Hashes(h) && LogOk(h, g, log) && |log| < TWO64 - 1
    ensures var e := NextEntry(h, RelayHead(g, log), blob);
            LogOk(h, g, log + [e]) && e.number == |log| + 1 && Grew(log, log + [e])
  {
    var head := RelayHead(g, log);
    var e := NextEntry(h, head, blob);
    HeadNumber(g, log, |log|);
    assert Prefix(log, |log|) == log;
    assert Linked(h, head, [e], 0);
    ChainedMore(h, Head(0, g), log, [e]);
  }

  // The session whose entry went in awaits the relay's reply for that very entry.
  lemma AppendedSession(h: Hasher, g: Bytes, log: seq<Entry>, stores: map<nat, Store>, x: Session, blob: Bytes)
    requires LogOk(h, g, log) && LogOk(h, g, log + [NextEntry(h, x.head, blob)])
    requires SessionOk(h, g, log, stores, x) && x.head.number == |log|
    ensures var e := NextEntry(h, x.head, blob);
            SessionOk(h, g, log + [e], stores, x.(phase := Awaiting(Head(e.number, e.hash), blob)))
  {
    hide StoreOk, SamePart, Chained, LogOk, End, Prefix;
    var e := NextEntry(h, x.head, blob);
    GrewPrefix(g, log, log + [e], x.head.number);
    SamePartFrame(x.added, log, log + [e], x.start);
  }

  lemma LevelWithRelay(g: Bytes, log: seq<Entry>, head: Head)
    requires Numbered(log, 0) && RelayHead(g, log) == head
    ensures head.number == |log|
  {
    HeadNumber(g, log, |log|);
    assert Prefix(log, |log|) == log;
  }

  lemma KeepAppend(h: Hasher, g: Bytes, w: World, s: nat, blob: Bytes)
    requires Hashes(h) && Inv(h, g, w) && Ready(w, s, (p: Phase) => p.UpToDate?)
    ensures var w' := TryAppend(h, g, w, s, blob); Inv(h, g, w') && Grew(w.log, w'.log) && w'.stores == w.stores
  {
    hide StoreOk, SamePart, Chained, End, Prefix;
    var x := w.sessions[s];
    var w' := TryAppend(h, g, w, s, blob);
    if blob != [] && x.head.number < TWO64 - 1 && RelayHead(g, w.log) == x.head {
      LevelWithRelay(g, w.log, x.head);
      AppendedLog(h, g, w.log, blob);
      AppendedSession(h, g, w.log, w.stores, x, blob);
    }
    InvFrame(h, g, w, w');
  }

  lemma KeepReply(h: Hasher, g: Bytes, w: World, s: nat)
    requires Inv(h, g, w) && Ready(w, s, (p: Phase) => p.Awaiting?)
    ensures Inv(h, g, TakeReply(h, w, s)) && Forward(w.stores, TakeReply(h, w, s).stores)
  {
    hide StoreOk, Chained, Kept;
    var x := w.sessions[s];
    var e := NextEntry(h, x.head, x.phase.blob);
    assert SamePart([e], w.log, x.head.number);
    EndOfPart(g, w.log, x.head, [e]);
    StoreTakes(g, w.log, w.stores[x.device], [e], x.head.number);
    InvStore(h, g, w, TakeReply(h, w, s), x.device);
  }

  lemma RedactedLog(h: Hasher, g: Bytes, log: seq<Entry>, k: nat)
    requires LogOk(h, g, log) && k < |log|
    ensures LogOk(h, g, log[k := Redacted(log[k])]) && Grew(log, log[k := Redacted(log[k])])
  {
    var log' := log[k := Redacted(log[k])];
    forall i | 0 <= i < |log'| ensures Linked(h, Head(0, g), log', i) {
      assert Linked(h, Head(0, g), log, i);
    }
  }

  lemma StoredHash(g: Bytes, log: seq<Entry>, st: Store)
    requires StoreOk(g, log, st) && st.number > 0 && forall i :: 0 <= i < |log| ==> log[i].hash != []
    ensures log[st.number - 1].hash == st.hash
  {
    hide HashTable;
    HashNonEmpty(g, log, st.number);
    assert Prefix(log, st.number)[st.number - 1] == log[st.number - 1];
  }

  lemma KeepPost(h: Hasher, g: Bytes, w: World, d: nat)
    requires Inv(h, g, w) && d in w.stores && w.stores[d].number > 0
    ensures Inv(h, g, w.(posted := w.posted + {(w.stores[d].number, w.stores[d].hash)}))
  {
    hide SessionOk, GrantedOk, Chained, HashTable;
    StoredHash(g, w.log, w.stores[d]);
  }

  // A member's checkpoint agrees with every other member's table.
  lemma CheckpointAgrees(g: Bytes, log: seq<Entry>, st: Store, n: int, hash: Bytes)
    requires StoreOk(g, log, st) && 1 <= n <= |log| && log[n - 1].hash == hash
    ensures StoreOk(g, log, Checked(st, n, hash)) && Checked(st, n, hash).warning == st.warning && Checked(st, n, hash).number == st.number
  {
    TableAt(Prefix(log, st.number), n);
  }

  lemma KeepRead(h: Hasher, g: Bytes, w: World, d: nat, p: (int, Bytes))
    requires Inv(h, g, w) && d in w.stores && p in w.posted
    ensures var w' := w.(stores := w.stores[d := Checked(w.stores[d], p.0, p.1)]);
            Inv(h, g, w') && Forward(w.stores, w'.stores) && w'.stores[d].warning == w.stores[d].warning
  {
    hide SessionOk, GrantedOk, LogOk, StoreOk, Checked;
    CheckpointAgrees(g, w.log, w.stores[d], p.0, p.1);
    InvStore(h, g, w, w.(stores := w.stores[d := Checked(w.stores[d], p.0, p.1)]), d);
  }

  lemma KeepRedact(h: Hasher, g: Bytes, w: World, k: nat)
    requires Inv(h, g, w) && k < |w.log|
    ensures Inv(h, g, w.(log := w.log[k := Redacted(w.log[k])]))
  {
    hide StoreOk, SessionOk, LogOk, Grew;
    RedactedLog(h, g, w.log, k);
    InvFrame(h, g, w, w.(log := w.log[k := Redacted(w.log[k])]));
  }

  lemma KeepOpen(h: Hasher, g: Bytes, w: World, s: nat, d: nat)
    requires Inv(h, g, w) && d in w.stores
    ensures Inv(h, g, With(w, s, Session(d, w.stores[d].number, StoredHead(g, w.stores[d]), Fetching, [], 0)))
  {
    HeadNumber(g, w.log, w.stores[d].number);
    InvFrame(h, g, w, With(w, s, Session(d, w.stores[d].number, StoredHead(g, w.stores[d]), Fetching, [], 0)));
  }

  // Every action, of any party, keeps the invariant and only ever adds to the log or redacts it.
  lemma StepKeeps(h: Hasher, g: Bytes, w: World, a: Action)
    requires Hashes(h) && Inv(h, g, w)
    ensures var w' := Do(h, g, w, a); Inv(h, g, w') && Grew(w.log, w'.log) && Forward(w.stores, w'.stores)
  {
    hide StoreOk, SessionOk, LogOk, GrantedOk, PostedOk, Checked;
    hide StoredHead, Fetch, TakeRound, TryAppend, RelayHead;
    match a
    case Join(d) => if d !in w.stores { KeepJoin(h, g, w, d); }
    case Open(s, d) => if d in w.stores { KeepOpen(h, g, w, s, d); }
    case ReadEntries(s) => if Ready(w, s, (p: Phase) => p.Fetching?) { KeepReadEntries(h, g, w, s); }
    case ReadHead(s) => if Ready(w, s, (p: Phase) => p.GotEntries?) { KeepReadHead(h, g, w, s); }
    case Append(s, blob) => if Ready(w, s, (p: Phase) => p.UpToDate?) { KeepAppend(h, g, w, s, blob); }
    case Reply(s) => if Ready(w, s, (p: Phase) => p.Awaiting?) { KeepReply(h, g, w, s); }
    case Drop(s) => InvFrame(h, g, w, Close(w, s));
    case Post(d) => if d in w.stores && w.stores[d].number > 0 { KeepPost(h, g, w, d); }
    case Read(d, p) => if d in w.stores && p in w.posted { KeepRead(h, g, w, d, p); }
    case Redact(n) =>
      if 1 <= n <= |w.log| {
        RedactedLog(h, g, w.log, n - 1);
        KeepRedact(h, g, w, n - 1);
      }
  }

  lemma GrewTransitive(a: seq<Entry>, b: seq<Entry>, c: seq<Entry>)
    requires Grew(a, b) && Grew(b, c)
    ensures Grew(a, c)
  {
  }

  // In every interleaving: each device's head and table are those of a beginning of the relay's log, each
  // session has passed on exactly the entries from its start to its head, in order, every append was given a
  // number of its own, no entry was ever overwritten, and no checked head ever went back.
  lemma {:induction false} RunKeeps(h: Hasher, g: Bytes, w: World, actions: seq<Action>)
    requires Hashes(h) && Inv(h, g, w)
    ensures var w' := Run(h, g, w, actions); Inv(h, g, w') && Grew(w.log, w'.log) && Forward(w.stores, w'.stores)
    decreases |actions|
  {
    if actions != [] {
      hide Inv, Hashes, Do, Grew;
      var w' := Do(h, g, w, actions[0]);
      StepKeeps(h, g, w, actions[0]);
      RunKeeps(h, g, w', actions[1..]);
      GrewTransitive(w.log, w'.log, Run(h, g, w', actions[1..]).log);
    }
  }

  lemma StartOk(h: Hasher, g: Bytes)
    ensures Inv(h, g, Start())
  {
  }

  // Whatever number two devices both hold a hash for, they hold the same one, so no device's checkpoint can make
  // another device suspect an honest relay.
  lemma DevicesAgree(h: Hasher, g: Bytes, w: World, d: nat, e: nat, n: int)
    requires Inv(h, g, w) && d in w.stores && e in w.stores
    ensures n in w.stores[d].chain <==> 1 <= n <= w.stores[d].number
    ensures n in w.stores[d].chain && n in w.stores[e].chain ==> w.stores[d].chain[n] == w.stores[e].chain[n]
    ensures n in w.stores[e].chain ==> Checked(w.stores[d], n, w.stores[e].chain[n]).warning == w.stores[d].warning
  {
    hide SessionOk, GrantedOk, Chained;
    TableAt(Prefix(w.log, w.stores[d].number), n);
    TableAt(Prefix(w.log, w.stores[e].number), n);
  }

  // ---- When an honest relay is suspected ----

  ghost predicate Quiet(w: World) {
    forall d :: d in w.stores ==> !w.stores[d].warning
  }

  // A fetch found nothing to send, and an append got in before the head was read.
  predicate Late(w: World, a: Action) {
    && a.ReadHead? && Ready(w, a.s, (p: Phase) => p.GotEntries?)
    && w.sessions[a.s].phase.entries == [] && w.sessions[a.s].head.number < |w.log|
  }

  lemma ReadHeadWarns(h: Hasher, g: Bytes, w: World, s: nat)
    requires Inv(h, g, w) && Ready(w, s, (p: Phase) => p.GotEntries?)
    ensures Quiet(FinishRound(h, g, w, s)) <==> Quiet(w) && !Late(w, ReadHead(s))
  {
    hide StoreOk, LogOk, SamePart, Chained, End, Prefix, TakeRound, GrantedOk;
    var x := w.sessions[s];
    var w' := FinishRound(h, g, w, s);
    HonestRound(h, g, w.log, w.stores[x.device], x.head, x.phase.entries);
    assert w'.stores[x.device].warning <==> w.stores[x.device].warning || Late(w, ReadHead(s));
    forall d | d in w.stores && d != x.device ensures w'.stores[d] == w.stores[d] {}
  }

  lemma StepWarns(h: Hasher, g: Bytes, w: World, a: Action)
    requires Inv(h, g, w)
    ensures Quiet(Do(h, g, w, a)) <==> Quiet(w) && !Late(w, a)
  {
    hide Inv, RelayHead, TakeRound, Fetch, StoredHead, SaveHashes, Tombstones, Checked;
    if a.ReadHead? && Ready(w, a.s, (p: Phase) => p.GotEntries?) {
      ReadHeadWarns(h, g, w, a.s);
    } else {
      var w' := Do(h, g, w, a);
      if a.Read? && a.device in w.stores && a.checkpoint in w.posted { KeepRead(h, g, w, a.device, a.checkpoint); }
      assert forall d :: d in w.stores ==> d in w'.stores && w'.stores[d].warning == w.stores[d].warning;
      assert forall d :: d in w'.stores && d !in w.stores ==> !w'.stores[d].warning;
    }
  }

  // The state after the first k actions.
  function At(h: Hasher, g: Bytes, w: World, actions: seq<Action>, k: nat): World
    requires k <= |actions|
  {
    Run(h, g, w, actions[..k])
  }

  lemma AtNext(h: Hasher, g: Bytes, w: World, actions: seq<Action>, k: nat)
    requires k < |actions|
    ensures At(h, g, w, actions, k + 1) == Do(h, g, At(h, g, w, actions, k), actions[k])
  {
    hide Do;
    assert actions[..k + 1] == actions[..k] + [actions[k]];
    RunTwice(h, g, w, actions[..k], [actions[k]]);
  }

  lemma AtKeeps(h: Hasher, g: Bytes, w: World, actions: seq<Action>, k: nat)
    requires Hashes(h) && Inv(h, g, w) && k <= |actions|
    ensures Inv(h, g, At(h, g, w, actions, k))
  {
    hide Inv, Hashes, Do, Grew, Forward;
    RunKeeps(h, g, w, actions[..k]);
  }

  ghost predicate LateAt(h: Hasher, g: Bytes, w: World, actions: seq<Action>, k: nat)
    requires k < |actions|
  {
    Late(At(h, g, w, actions, k), actions[k])
  }

  // A run raises a warning on some device exactly when at least one fetch was late.
  lemma {:induction false} QuietUpTo(h: Hasher, g: Bytes, w: World, actions: seq<Action>, k: nat)
    requires Hashes(h) && Inv(h, g, w) && k <= |actions|
    ensures Quiet(At(h, g, w, actions, k)) <==> Quiet(w) && forall t :: 0 <= t < k ==> !LateAt(h, g, w, actions, t)
  {
    hide Do, Late, Inv, Quiet, Hashes, At;
    if k == 0 {
      AtStart(h, g, w, actions);
    } else {
      QuietUpTo(h, g, w, actions, k - 1);
      AtKeeps(h, g, w, actions, k - 1);
      AtNext(h, g, w, actions, k - 1);
      StepWarns(h, g, At(h, g, w, actions, k - 1), actions[k - 1]);
      assert LateAt(h, g, w, actions, k - 1) == Late(At(h, g, w, actions, k - 1), actions[k - 1]);
    }
  }

  lemma AtStart(h: Hasher, g: Bytes, w: World, actions: seq<Action>)
    ensures At(h, g, w, actions, 0) == w && At(h, g, w, actions, |actions|) == Run(h, g, w, actions)
  {
    hide Do;
    assert actions[..0] == [] && actions[..|actions|] == actions;
  }

  // ---- A late fetch is one that an append got in between ----

  // This append gets in: it is made on the relay's head.
  predicate GotIn(g: Bytes, w: World, a: Action) {
    && a.Append? && Ready(w, a.s, (p: Phase) => p.UpToDate?)
    && a.blob != [] && w.sessions[a.s].head.number < TWO64 - 1 && RelayHead(g, w.log) == w.sessions[a.s].head
  }

  // The fetch whose entries are read at i and whose head is read at k found nothing, and the append at j got in.
  ghost predicate Overtaken(h: Hasher, g: Bytes, w: World, actions: seq<Action>, i: nat, j: nat, k: nat, s: nat) {
    && i < j < k < |actions| && actions[i] == ReadEntries(s) && actions[k] == ReadHead(s) && Undisturbed(actions, s, i, k)
    && FoundNothing(At(h, g, w, actions, i), s) && GotIn(g, At(h, g, w, actions, j), actions[j])
  }

  predicate Undisturbed(actions: seq<Action>, s: nat, i: nat, k: nat)
    requires k <= |actions|
  {
    forall t :: i < t < k ==> actions[t] != ReadHead(s) && actions[t] != Drop(s)
  }

  predicate FoundNothing(w: World, s: nat) {
    Ready(w, s, (p: Phase) => p.Fetching?) && Fetch(w.log, w.sessions[s].head.number) == []
  }

  lemma LogStep(h: Hasher, g: Bytes, w: World, a: Action)
    ensures |Do(h, g, w, a).log| == |w.log| + if GotIn(g, w, a) then 1 else 0
  {
    hide RelayHead, TakeRound, Fetch, StoredHead, Checked, Kept;
  }

  // The log is longer at k than at i exactly when an append got in between.
  lemma {:induction false} LogBetween(h: Hasher, g: Bytes, w: World, actions: seq<Action>, i: nat, k: nat)
    requires i <= k <= |actions|
    ensures |At(h, g, w, actions, i).log| <= |At(h, g, w, actions, k).log|
    ensures |At(h, g, w, actions, i).log| < |At(h, g, w, actions, k).log| <==>
            exists j :: i <= j < k && GotIn(g, At(h, g, w, actions, j), actions[j])
    decreases k
  {
    hide Do, At, GotIn;
    if i < k {
      LogBetween(h, g, w, actions, i, k - 1);
      AtNext(h, g, w, actions, k - 1);
      LogStep(h, g, At(h, g, w, actions, k - 1), actions[k - 1]);
    }
  }

  predicate HasEntries(w: World, s: nat) {
    s in w.sessions && w.sessions[s].phase.GotEntries?
  }

  // A session comes to hold entries only by reading them, and holds them until it reads the head or is dropped.
  lemma SessionStep(h: Hasher, g: Bytes, w: World, a: Action, s: nat)
    requires Inv(h, g, w)
    ensures var w' := Do(h, g, w, a);
            && (HasEntries(w, s) && a != ReadHead(s) && a != Drop(s) ==> s in w'.sessions && w'.sessions[s] == w.sessions[s])
            && (HasEntries(w', s) ==>
                  || (HasEntries(w, s) && w'.sessions[s] == w.sessions[s] && a != ReadHead(s) && a != Drop(s))
                  || (a == ReadEntries(s) && Ready(w, s, (p: Phase) => p.Fetching?)
                      && w'.sessions[s] == w.sessions[s].(phase := GotEntries(Fetch(w.log, w.sessions[s].head.number)))))
  {
    hide Inv, RelayHead, Fetch, StoredHead, Checked, FinishRound, TryAppend, TakeReply;
    if HasEntries(w, s) { NothingAfter(h, g, w, s); }
    match a
    case ReadHead(t) => if Ready(w, t, (p: Phase) => p.GotEntries?) { RoundSessions(h, g, w, t, s); }
    case Append(t, blob) => if Ready(w, t, (p: Phase) => p.UpToDate?) { AppendSessions(h, g, w, t, blob, s); }
    case Reply(t) => if Ready(w, t, (p: Phase) => p.Awaiting?) { ReplySessions(h, w, t, s); }
    case _ =>
  }

  lemma RoundSessions(h: Hasher, g: Bytes, w: World, t: nat, s: nat)
    requires Ready(w, t, (p: Phase) => p.GotEntries?)
    ensures var w' := FinishRound(h, g, w, t);
            (s != t ==> (s in w'.sessions <==> s in w.sessions) && (s in w.sessions ==> w'.sessions[s] == w.sessions[s])) && !HasEntries(w', t)
  {
    hide TakeRound, RelayHead;
  }

  lemma AppendSessions(h: Hasher, g: Bytes, w: World, t: nat, blob: Bytes, s: nat)
    requires Ready(w, t, (p: Phase) => p.UpToDate?)
    ensures var w' := TryAppend(h, g, w, t, blob);
            (s != t ==> (s in w'.sessions <==> s in w.sessions) && (s in w.sessions ==> w'.sessions[s] == w.sessions[s])) && !HasEntries(w', t)
  {
    hide RelayHead;
  }

  lemma ReplySessions(h: Hasher, w: World, t: nat, s: nat)
    requires Ready(w, t, (p: Phase) => p.Awaiting?)
    ensures var w' := TakeReply(h, w, t);
            (s != t ==> (s in w'.sessions <==> s in w.sessions) && (s in w.sessions ==> w'.sessions[s] == w.sessions[s])) && !HasEntries(w', t)
  {
    hide Kept;
  }

  lemma {:induction false} EntriesRead(h: Hasher, g: Bytes, w: World, actions: seq<Action>, k: nat, s: nat) returns (i: nat)
    requires Hashes(h) && Inv(h, g, w) && !HasEntries(w, s) && k <= |actions| && HasEntries(At(h, g, w, actions, k), s)
    ensures i < k && actions[i] == ReadEntries(s) && Undisturbed(actions, s, i, k)
    ensures var then_ := At(h, g, w, actions, i);
            && Ready(then_, s, (p: Phase) => p.Fetching?)
            && At(h, g, w, actions, k).sessions[s] == then_.sessions[s].(phase := GotEntries(Fetch(then_.log, then_.sessions[s].head.number)))
    decreases k
  {
    hide Do, At, Inv, Hashes, Fetch;
    if k == 0 {
      AtStart(h, g, w, actions);
    }
    var before := At(h, g, w, actions, k - 1);
    AtKeeps(h, g, w, actions, k - 1);
    AtNext(h, g, w, actions, k - 1);
    SessionStep(h, g, before, actions[k - 1], s);
    if HasEntries(before, s) && actions[k - 1] != ReadHead(s) && actions[k - 1] != Drop(s) && At(h, g, w, actions, k).sessions[s] == before.sessions[s] {
      i := EntriesRead(h, g, w, actions, k - 1, s);
    } else {
      i := k - 1;
    }
  }

  lemma {:induction false} EntriesStay(h: Hasher, g: Bytes, w: World, actions: seq<Action>, i: nat, k: nat, s: nat)
    requires Hashes(h) && Inv(h, g, w) && i < k <= |actions| && actions[i] == ReadEntries(s) && Undisturbed(actions, s, i, k)
    requires Ready(At(h, g, w, actions, i), s, (p: Phase) => p.Fetching?)
    ensures var then_ := At(h, g, w, actions, i);
            && s in At(h, g, w, actions, k).sessions
            && At(h, g, w, actions, k).sessions[s] == then_.sessions[s].(phase := GotEntries(Fetch(then_.log, then_.sessions[s].head.number)))
    decreases k
  {
    hide At, Inv, Hashes, Fetch, StoredHead, TakeRound, TryAppend, RelayHead;
    AtNext(h, g, w, actions, k - 1);
    if i < k - 1 {
      hide Do;
      EntriesStay(h, g, w, actions, i, k - 1, s);
      AtKeeps(h, g, w, actions, k - 1);
      SessionStep(h, g, At(h, g, w, actions, k - 1), actions[k - 1], s);
    }
  }

  // A fetch that finds nothing is level with the log.
  lemma NothingAfter(h: Hasher, g: Bytes, w: World, s: nat)
    requires Inv(h, g, w) && s in w.sessions
    ensures 0 <= w.sessions[s].head.number <= |w.log| && s in w.sessions && w.sessions[s].device in w.stores
    ensures Fetch(w.log, w.sessions[s].head.number) == [] <==> w.sessions[s].head.number == |w.log|
  {
    hide StoreOk, LogOk, PhaseOk, GrantedOk, PostedOk, SamePart, Prefix, End;
    assert SessionOk(h, g, w.log, w.stores, w.sessions[s]);
  }

  lemma LateIsOvertaken(h: Hasher, g: Bytes, w: World, actions: seq<Action>, k: nat)
    requires Hashes(h) && Inv(h, g, w) && (forall s :: !HasEntries(w, s)) && k < |actions|
    ensures LateAt(h, g, w, actions, k) <==> exists i: nat, j: nat, s: nat :: Overtaken(h, g, w, actions, i, j, k, s)
  {
    hide At, Inv, Hashes, Fetch, GotIn, Undisturbed;
    if LateAt(h, g, w, actions, k) {
      var s := actions[k].s;
      var i := EntriesRead(h, g, w, actions, k, s);
      AtKeeps(h, g, w, actions, i);
      NothingAfter(h, g, At(h, g, w, actions, i), s);
      LogBetween(h, g, w, actions, i, k);
      var j :| i <= j < k && GotIn(g, At(h, g, w, actions, j), actions[j]);
      NotAnAppend(g, At(h, g, w, actions, i), actions[i]);
      assert Overtaken(h, g, w, actions, i, j, k, s);
    }
    forall i: nat, j: nat, s: nat | Overtaken(h, g, w, actions, i, j, k, s) ensures LateAt(h, g, w, actions, k) {
      EntriesStay(h, g, w, actions, i, k, s);
      AtKeeps(h, g, w, actions, i);
      AtKeeps(h, g, w, actions, k);
      NothingAfter(h, g, At(h, g, w, actions, i), s);
      NothingAfter(h, g, At(h, g, w, actions, k), s);
      LogBetween(h, g, w, actions, i, k);
    }
  }

  lemma NotAnAppend(g: Bytes, w: World, a: Action)
    requires a.ReadEntries?
    ensures !GotIn(g, w, a)
  {
  }

  // Exactly when a run against an honest relay raises a warning on some device: an append got in between the two reads
  // of a fetch that had found nothing. No checkpoint of a member ever does.
  lemma RunWarns(h: Hasher, g: Bytes, w: World, actions: seq<Action>)
    requires Hashes(h) && Inv(h, g, w) && forall s :: !HasEntries(w, s)
    ensures Quiet(Run(h, g, w, actions)) <==>
            Quiet(w) && forall i: nat, j: nat, k: nat, s: nat :: !Overtaken(h, g, w, actions, i, j, k, s)
  {
    hide At, Inv, Hashes, Quiet, LateAt, Run, Overtaken;
    AtStart(h, g, w, actions);
    QuietUpTo(h, g, w, actions, |actions|);
    if Quiet(w) && !Quiet(Run(h, g, w, actions)) {
      var k :| 0 <= k < |actions| && LateAt(h, g, w, actions, k);
      LateIsOvertaken(h, g, w, actions, k);
    }
    forall i: nat, j: nat, k: nat, s: nat | Overtaken(h, g, w, actions, i, j, k, s) ensures !Quiet(Run(h, g, w, actions)) || !Quiet(w) {
      OvertakenBounds(h, g, w, actions, i, j, k, s);
      LateIsOvertaken(h, g, w, actions, k);
    }
  }

  lemma OvertakenBounds(h: Hasher, g: Bytes, w: World, actions: seq<Action>, i: nat, j: nat, k: nat, s: nat)
    requires Overtaken(h, g, w, actions, i, j, k, s)
    ensures i < j < k < |actions|
  {
  }

  // A fetch that reads its entries and the head with nothing in between is never late.
  lemma SnapshotNeverLate(h: Hasher, g: Bytes, w: World, s: nat)
    requires Inv(h, g, w)
    ensures Ready(w, s, (p: Phase) => p.Fetching?) ==> !Late(Do(h, g, w, ReadEntries(s)), ReadHead(s))
  {
  }

  lemma {:induction false} RunTwice(h: Hasher, g: Bytes, w: World, first: seq<Action>, then_: seq<Action>)
    ensures Run(h, g, w, first + then_) == Run(h, g, Run(h, g, w, first), then_)
    decreases |first|
  {
    hide Do;
    if first == [] {
      assert first + then_ == then_;
    } else {
      assert (first + then_)[1..] == first[1..] + then_;
      RunTwice(h, g, Do(h, g, w, first[0]), first[1..], then_);
    }
  }

  lemma LevelSession(h: Hasher, g: Bytes, w: World, t: nat)
    requires Inv(h, g, w) && t in w.sessions && w.sessions[t].head == RelayHead(g, w.log)
    ensures w.sessions[t].head.number == |w.log|
  {
    LevelWithRelay(g, w.log, w.sessions[t].head);
  }

  // Any append that overtakes a fetch which had nothing to send makes that fetch late.
  lemma OvertakenFetchWarns(h: Hasher, g: Bytes, w: World, s: nat, t: nat, blob: Bytes)
    requires Hashes(h) && Inv(h, g, w) && s != t && blob != [] && |w.log| < TWO64 - 1
    requires Ready(w, s, (p: Phase) => p == GotEntries([])) && w.sessions[s].head.number == |w.log|
    requires Ready(w, t, (p: Phase) => p.UpToDate?) && w.sessions[t].head == RelayHead(g, w.log)
    ensures !Quiet(Run(h, g, w, [Append(t, blob), ReadHead(s)]))
  {
    hide Inv, RelayHead, Hashes, FinishRound, At, Run;
    var actions := [Append(t, blob), ReadHead(s)];
    LevelSession(h, g, w, t);
    AtStart(h, g, w, actions);
    AtNext(h, g, w, actions, 0);
    assert LateAt(h, g, w, actions, 1);
    QuietUpTo(h, g, w, actions, 2);
  }

  // Two devices join and each opens a session on the empty archive; both fetch, one reads the head at once.
  function Opening(): seq<Action> {
    [Join(0), Join(1), Open(0, 0), Open(1, 1)]
  }

  function Fetches(): seq<Action> {
    [ReadEntries(0), ReadEntries(1), ReadHead(1)]
  }

  function Opened(g: Bytes): World {
    World([], map[0 := EmptyStore(), 1 := EmptyStore()],
          map[0 := Session(0, 0, Head(0, g), Fetching, [], 0), 1 := Session(1, 0, Head(0, g), Fetching, [], 0)], [], {})
  }

  lemma OpeningRun(h: Hasher, g: Bytes)
    ensures Run(h, g, Start(), Opening()) == Opened(g)
  {
    hide RelayHead, TakeRound, Fetch, TryAppend, TakeReply, FinishRound, Ready;
    var w1 := Do(h, g, Start(), Join(0));
    var w2 := Do(h, g, w1, Join(1));
    var w3 := Do(h, g, w2, Open(0, 0));
    var w4 := Do(h, g, w3, Open(1, 1));
    assert Opening()[1..] == [Join(1), Open(0, 0), Open(1, 1)];
    assert [Join(1), Open(0, 0), Open(1, 1)][1..] == [Open(0, 0), Open(1, 1)];
    assert [Open(0, 0), Open(1, 1)][1..] == [Open(1, 1)];
    assert w4 == Opened(g);
  }

  lemma FetchesRun(h: Hasher, g: Bytes)
    ensures var w := Run(h, g, Opened(g), Fetches());
            && w.log == [] && w.stores.Keys == {0, 1} && 0 in w.sessions && 1 in w.sessions
            && w.sessions[0] == Session(0, 0, Head(0, g), GotEntries([]), [], 0)
            && w.sessions[1] == Session(1, 0, Head(0, g), UpToDate, [], 0)
  {
    hide TryAppend, TakeReply, Kept, TakeRound;
    var w1 := Do(h, g, Opened(g), ReadEntries(0));
    var w2 := Do(h, g, w1, ReadEntries(1));
    assert Fetches()[1..] == [ReadEntries(1), ReadHead(1)];
    assert [ReadEntries(1), ReadHead(1)][1..] == [ReadHead(1)];
    assert w2.sessions[1] == Session(1, 0, Head(0, g), GotEntries([]), [], 0);
    RoundOfVerified(h, w2.stores[1], Head(0, g), [], Head(0, g));
  }

  // Two honest devices and an honest relay, and still one device warns that the relay has gone back.
  lemma HonestRelayWarnedOf(h: Hasher, g: Bytes)
    requires Hashes(h)
    ensures !Quiet(Run(h, g, Start(), Opening() + Fetches() + [Append(1, [7]), ReadHead(0)]))
  {
    hide Do, Quiet;
    StartOk(h, g);
    OpeningRun(h, g);
    FetchesRun(h, g);
    RunTwice(h, g, Start(), Opening(), Fetches());
    RunTwice(h, g, Start(), Opening() + Fetches(), [Append(1, [7]), ReadHead(0)]);
    RunKeeps(h, g, Start(), Opening() + Fetches());
    OvertakenFetchWarns(h, g, Run(h, g, Opened(g), Fetches()), 0, 1, [7]);
  }

  // ---- Catching up on a log that stands still ----

  // The answers an honest relay gives from `from` on, a hundred entries at a time, and an empty one when there
  // is nothing left.
  function Pages(g: Bytes, log: seq<Entry>, from: nat): seq<Answer>
    requires from <= |log|
    decreases |log| - from
  {
    var answer := Answer(Fetch(log, from), RelayHead(g, log));
    if from + FETCH_LIMIT >= |log| then [answer] else [answer] + Pages(g, log, from + FETCH_LIMIT)
  }

  // The loop stops, succeeds, hands on exactly the entries the device had missed, and ends at the relay's head.
  lemma {:induction false} CatchUpGetsAll(h: Hasher, g: Bytes, log: seq<Entry>, st: Store, head: Head)
    requires LogOk(h, g, log) && StoreOk(g, log, st)
    requires 0 <= head.number <= st.number && head == End(Head(0, g), Prefix(log, head.number))
    ensures var r := CatchUpSpec(TakeRound(h), st, head, Pages(g, log, head.number));
            && r.ok && r.added == log[head.number..] && r.head == RelayHead(g, log)
            && StoreOk(g, log, r.st) && r.st.number == |log| && r.st.warning == st.warning
    decreases |log| - head.number
  {
    hide LogOk, TakeRound, End, Prefix, Chained, SamePart, HashTable, StoredHead;
    var n, es := head.number, Fetch(log, head.number);
    var answer, pages := Answer(es, RelayHead(g, log)), Pages(g, log, head.number);
    FetchedIsChained(h, g, log, head);
    HonestRound(h, g, log, st, head, es);
    var t := TakeRound(h)(st, head, answer);
    assert pages[0] == answer;
    if n + FETCH_LIMIT < |log| {
      assert pages[1..] == Pages(g, log, n + FETCH_LIMIT);
      CatchUpGetsAll(h, g, log, t.st, t.head);
      assert es + log[n + FETCH_LIMIT..] == log[n..];
    }
  }
}
