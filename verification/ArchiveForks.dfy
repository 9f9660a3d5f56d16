/**
 One device against a relay that may answer anything at all, over any number of syncs and appends
 (archive_sync, archive_append and process_checkpoint of client/messaging_engine.cpp), and two such devices.

 Several sessions of one device may be open at once. Each starts at the stored head, checks its own answers and writes into
 the same table, where a hash once saved for a number is not replaced.
 */
module ArchiveForks {
  import opened Wire
  import opened Archive
  import ArchiveProtocol

  // The store, the heads of the open sessions, and, as history, the entries whose hashes went into the table.
  datatype Client = Client(st: Store, sessions: map<nat, Head>, held: seq<Entry>)

  datatype Step =
    | Open(s: nat)
    | Answered(s: nat, answer: Answer)
    | Appended(s: nat, blob: Bytes, reply: Head)
    | Dropped(s: nat)
    | Told(number: int, hash: Bytes)   // another member's checkpoint

  // What a step brings, once checked: a verified answer, or the device's own entry as the relay's reply confirms it.
  function Brought(h: Hasher, head: Head, step: Step): seq<Entry> {
    match step
    case Answered(_, a) => if Chained(h, head, a.entries) then a.entries else []
    case Appended(_, blob, reply) =>
      var e := ArchiveProtocol.NextEntry(h, head, blob);
      if reply == Head(e.number, e.hash) then [e] else []
    case _ => []
  }

  // The part of it the table has no numbers for yet.
  function Beyond(number: int, head: Head, es: seq<Entry>): seq<Entry> {
    if 0 <= number - head.number < |es| then es[number - head.number..] else []
  }

  function Next(h: Hasher, g: Bytes, c: Client, step: Step): Client {
    match step
    case Open(s) => if s in c.sessions then c else c.(sessions := c.sessions[s := StoredHead(g, c.st)])
    case Answered(s, a) =>
      if s !in c.sessions then c
      else
        var head := c.sessions[s];
        var t := TakeRound(h)(c.st, head, a);
        Client(t.st, if t.outcome == Failed then c.sessions - {s} else c.sessions[s := t.head], c.held + Beyond(c.st.number, head, t.added))
    case Appended(s, blob, reply) =>
      if s !in c.sessions then c
      else
        var head := c.sessions[s];
        var es := Brought(h, head, step);
        if es == [] then c.(sessions := c.sessions - {s})
        else Client(Kept(c.st, es, reply), c.sessions - {s}, c.held + Beyond(c.st.number, head, es))
    case Dropped(s) => c.(sessions := c.sessions - {s})
    case Told(n, hash) => c.(st := Checked(c.st, n, hash))
  }

  function Run(h: Hasher, g: Bytes, c: Client, steps: seq<Step>): Client
    decreases |steps|
  {
    if steps == [] then c else Run(h, g, Next(h, g, c, steps[0]), steps[1..])
  }

  function Fresh(): Client {
    Client(EmptyStore(), map[], [])
  }

  // ---- What a step needs ----

  // The head of the session a step belongs to.
  function HeadOf(c: Client, step: Step): Option<Head> {
    if (step.Answered? || step.Appended?) && step.s in c.sessions then Some(c.sessions[step.s]) else None
  }

  // Hashes are not empty, as the decoder demands, and numbers do not wrap around.
  predicate SaneEntries(head: Head, es: seq<Entry>) {
    head.number + |es| < TWO64 && forall i :: 0 <= i < |es| ==> es[i].hash != []
  }

  predicate Sane(h: Hasher, c: Client, step: Step) {
    HeadOf(c, step).Some? ==> SaneEntries(HeadOf(c, step).value, Brought(h, HeadOf(c, step).value, step))
  }

  // Where a session's entries pass the stored head, the session has the stored hash, or the next entry is a tombstone.
  predicate MeetsEntries(g: Bytes, st: Store, head: Head, es: seq<Entry>) {
    var k := st.number - head.number;
    0 <= k < |es| ==> es[k].tombstone || Before(head, es, k).hash == StoredHead(g, st).hash
  }

  predicate Meets(h: Hasher, g: Bytes, c: Client, step: Step) {
    HeadOf(c, step).Some? ==> MeetsEntries(g, c.st, HeadOf(c, step).value, Brought(h, HeadOf(c, step).value, step))
  }

  // Made on the stored chain, the first entry beyond the stored head would have another hash than on the session's, unless
  // the two chains end in the same hash there.
  predicate Apart(h: Hasher, g: Bytes, st: Store, head: Head, es: seq<Entry>) {
    var k := st.number - head.number;
    0 <= k < |es| && HashAt(h, head, es, k) == h(es[k].number, StoredHead(g, st).hash, es[k].ciphertext) ==>
      Before(head, es, k).hash == StoredHead(g, st).hash
  }

  predicate NoClash(h: Hasher, g: Bytes, c: Client, step: Step) {
    HeadOf(c, step).Some? ==> Apart(h, g, c.st, HeadOf(c, step).value, Brought(h, HeadOf(c, step).value, step))
  }

  predicate SessionsOk(c: Client) {
    forall s :: s in c.sessions ==> 0 <= c.sessions[s].number <= c.st.number
  }

  ghost predicate Good(h: Hasher, g: Bytes, c: Client) {
    Holds(h, g, c.st, c.held) && SessionsOk(c)
  }

  // ---- One step ----

  lemma HeldNumber(h: Hasher, g: Bytes, st: Store, es: seq<Entry>)
    requires Holds(h, g, st, es)
    ensures st.number == |es|
  {
    hide Chained, HashTable;
  }

  // A table that has all these numbers already is left as it is.
  lemma {:induction false} SaveKnown(table: map<int, Bytes>, es: seq<Entry>, rest: seq<Entry>)
    requires forall i :: 0 <= i < |es| ==> es[i].number in table
    ensures SaveHashes(table, es + rest) == SaveHashes(table, rest)
    decreases |es|
  {
    if es == [] {
      assert es + rest == rest;
    } else {
      assert (es + rest)[1..] == es[1..] + rest;
      SaveKnown(table, es[1..], rest);
    }
  }

  lemma KnownPart(table: map<int, Bytes>, held: seq<Entry>, head: Head, es: seq<Entry>, k: nat)
    requires table == HashTable(held) && 0 <= head.number && Numbered(es, head.number) && k <= |es| && head.number + k <= |held|
    ensures SaveHashes(table, es) == SaveHashes(table, es[k..])
  {
    forall i | 0 <= i < k ensures es[..k][i].number in table { TableAt(held, head.number + 1 + i); }
    SaveKnown(table, es[..k], es[k..]);
    assert es[..k] + es[k..] == es;
  }

  // Only the number, the hash and the table matter.
  lemma HoldsAlike(h: Hasher, g: Bytes, st: Store, st': Store, es: seq<Entry>)
    requires Holds(h, g, st, es) && st'.number == st.number && st'.hash == st.hash && st'.chain == st.chain
    ensures Holds(h, g, st', es)
  {
    hide Chained, HashTable;
  }

  lemma EndNumber(h: Hasher, head: Head, es: seq<Entry>)
    requires Chained(h, head, es) && 0 <= head.number && head.number + |es| < TWO64
    ensures Numbered(es, head.number) && End(head, es).number == head.number + |es|
  {
    NumbersFollow(h, head, es, head.number);
  }

  // Entries the table has the numbers of change nothing in it.
  lemma BehindHolds(h: Hasher, g: Bytes, st: Store, held: seq<Entry>, head: Head, es: seq<Entry>)
    requires Holds(h, g, st, held) && 0 <= head.number && head.number + |es| <= st.number && Chained(h, head, es)
    ensures var st' := Kept(st, es, End(head, es)); Holds(h, g, st', held) && st'.number == st.number
  {
    hide Chained, HashTable;
    HeldNumber(h, g, st, held);
    EndNumber(h, head, es);
    KnownPart(st.chain, held, head, es, |es|);
    assert es[|es|..] == [];
    HoldsAlike(h, g, st, Kept(st, es, End(head, es)), held);
  }

  // The part of a session's chain beyond the stored head continues the stored chain exactly when the two meet there.
  lemma BeyondLinks(h: Hasher, g: Bytes, st: Store, head: Head, es: seq<Entry>)
    requires 0 <= head.number <= st.number < head.number + |es| < TWO64 && Chained(h, head, es)
    ensures MeetsEntries(g, st, head, es) ==> Chained(h, StoredHead(g, st), es[st.number - head.number..])
    ensures Apart(h, g, st, head, es) && Chained(h, StoredHead(g, st), es[st.number - head.number..]) ==> MeetsEntries(g, st, head, es)
  {
    var k := st.number - head.number;
    var tail, from := es[k..], StoredHead(g, st);
    EndNumber(h, head, es);
    assert Linked(h, head, es, k);
    assert MeetsEntries(g, st, head, es) ==> Linked(h, from, tail, 0);
    assert Apart(h, g, st, head, es) && Linked(h, from, tail, 0) ==> MeetsEntries(g, st, head, es);
    forall i | 1 <= i < |tail| ensures Linked(h, from, tail, i) { assert Linked(h, head, es, k + i); }
  }

  lemma BeyondHolds(h: Hasher, g: Bytes, st: Store, held: seq<Entry>, head: Head, es: seq<Entry>)
    requires Holds(h, g, st, held) && 0 <= head.number <= st.number < head.number + |es| && SaneEntries(head, es)
    requires Chained(h, head, es)
    ensures var st' := Kept(st, es, End(head, es));
            && (MeetsEntries(g, st, head, es) ==> Holds(h, g, st', held + es[st.number - head.number..]))
            && (Apart(h, g, st, head, es) && Holds(h, g, st', held + es[st.number - head.number..]) ==> MeetsEntries(g, st, head, es))
            && st'.number == head.number + |es|
  {
    hide Apart, MeetsEntries, Linked;
    var k := st.number - head.number;
    var tail, st' := es[k..], Kept(st, es, End(head, es));
    HeldNumber(h, g, st, held);
    EndNumber(h, head, es);
    BeyondLinks(h, g, st, head, es);
    if Chained(h, StoredHead(g, st), tail) {
      HoldsMore(h, g, st, held, tail);
      KnownPart(st.chain, held, head, es, k);
      HoldsAlike(h, g, Kept(st, tail, End(StoredHead(g, st), tail)), st', held + tail);
    }
    if Holds(h, g, st', held + tail) { TailChained(h, Head(0, g), held, tail); }
  }

  lemma TailChained(h: Hasher, from: Head, a: seq<Entry>, b: seq<Entry>)
    requires Chained(h, from, a + b)
    ensures Chained(h, End(from, a), b)
  {
    VerifiedInParts(h, from, a, b);
  }

  // Verified entries taken in from any point behind the stored head.
  lemma TakenIn(h: Hasher, g: Bytes, st: Store, held: seq<Entry>, head: Head, es: seq<Entry>)
    requires Holds(h, g, st, held) && 0 <= head.number <= st.number && SaneEntries(head, es)
    requires Chained(h, head, es)
    ensures var st' := Kept(st, es, End(head, es));
            && (MeetsEntries(g, st, head, es) ==> Holds(h, g, st', held + Beyond(st.number, head, es)))
            && (Apart(h, g, st, head, es) && Holds(h, g, st', held + Beyond(st.number, head, es)) ==> MeetsEntries(g, st, head, es))
            && st.number <= st'.number && End(head, es).number <= st'.number && 0 <= End(head, es).number
  {
    hide Holds, Chained, Kept, Apart;
    EndNumber(h, head, es);
    if head.number + |es| <= st.number {
      BehindHolds(h, g, st, held, head, es);
      assert held + [] == held;
    } else {
      BeyondHolds(h, g, st, held, head, es);
    }
  }

  // The relay may send anything: a step leaves the device with a verified chain, the old one and what the step added to the
  // table, exactly when the session meets the stored chain where it passes it.
  lemma StepHolds(h: Hasher, g: Bytes, c: Client, step: Step)
    requires Good(h, g, c) && Sane(h, c, step)
    ensures var c' := Next(h, g, c, step);
            && SessionsOk(c') && c.st.number <= c'.st.number
            && (Meets(h, g, c, step) ==> Holds(h, g, c'.st, c'.held))
            && (NoClash(h, g, c, step) && Holds(h, g, c'.st, c'.held) ==> Meets(h, g, c, step))
  {
    hide Holds, Chained, Apart, MeetsEntries, SaneEntries, TakeRound, Kept, ArchiveProtocol.NextEntry;
    match step
    case Open(s) => StoredNumber(h, g, c.st, c.held);
    case Answered(s, a) => if s in c.sessions { AnsweredHolds(h, g, c, s, a); }
    case Appended(s, blob, reply) => if s in c.sessions { AppendedHolds(h, g, c, s, blob, reply); }
    case Dropped(s) =>
    case Told(n, hash) => HoldsAlike(h, g, c.st, Checked(c.st, n, hash), c.held);
  }

  lemma StoredNumber(h: Hasher, g: Bytes, st: Store, es: seq<Entry>)
    requires Holds(h, g, st, es)
    ensures 0 <= StoredHead(g, st).number == st.number
  {
    HeldNumber(h, g, st, es);
  }

  lemma AnsweredHolds(h: Hasher, g: Bytes, c: Client, s: nat, a: Answer)
    requires Good(h, g, c) && s in c.sessions && Sane(h, c, Answered(s, a))
    ensures var c' := Next(h, g, c, Answered(s, a));
            && SessionsOk(c') && c.st.number <= c'.st.number
            && (Meets(h, g, c, Answered(s, a)) ==> Holds(h, g, c'.st, c'.held))
            && (NoClash(h, g, c, Answered(s, a)) && Holds(h, g, c'.st, c'.held) ==> Meets(h, g, c, Answered(s, a)))
  {
    hide Holds, Chained, Apart, MeetsEntries, SaneEntries, TakeRound, Kept, Judge;
    var head, es := c.sessions[s], a.entries;
    var c' := Next(h, g, c, Answered(s, a));
    if Chained(h, head, es) {
      TakenIn(h, g, c.st, c.held, head, es);
      RoundOfVerified(h, c.st, head, es, a.head);
      WarningAside(h, g, Kept(c.st, es, End(head, es)), c'.held);
    } else {
      RoundRefused(h, c.st, head, a);
      assert MeetsEntries(g, c.st, head, []) by { NothingMeets(g, c.st, head); }
      assert Beyond(c.st.number, head, []) == [] && c.held + [] == c.held;
      WarningAside(h, g, c.st, c.held);
    }
  }

  lemma WarningAside(h: Hasher, g: Bytes, st: Store, es: seq<Entry>)
    ensures Holds(h, g, st.(warning := true), es) <==> Holds(h, g, st, es)
  {
    hide Chained, HashTable;
  }

  lemma NothingMeets(g: Bytes, st: Store, head: Head)
    ensures MeetsEntries(g, st, head, [])
  {
  }

  lemma RoundRefused(h: Hasher, st: Store, head: Head, a: Answer)
    requires !Chained(h, head, a.entries)
    ensures TakeRound(h)(st, head, a) == Taken(st.(warning := true), head, Failed, [])
  {
  }

  lemma AppendedHolds(h: Hasher, g: Bytes, c: Client, s: nat, blob: Bytes, reply: Head)
    requires Good(h, g, c) && s in c.sessions && Sane(h, c, Appended(s, blob, reply))
    ensures var c' := Next(h, g, c, Appended(s, blob, reply));
            && SessionsOk(c') && c.st.number <= c'.st.number
            && (Meets(h, g, c, Appended(s, blob, reply)) ==> Holds(h, g, c'.st, c'.held))
            && (NoClash(h, g, c, Appended(s, blob, reply)) && Holds(h, g, c'.st, c'.held) ==> Meets(h, g, c, Appended(s, blob, reply)))
  {
    hide Holds, Apart, MeetsEntries, Kept;
    var head, es := c.sessions[s], Brought(h, c.sessions[s], Appended(s, blob, reply));
    if es == [] {
      NothingMeets(g, c.st, head);
    } else {
      assert Linked(h, head, es, 0);
      TakenIn(h, g, c.st, c.held, head, es);
    }
  }

  // ---- Whole runs ----

  // Every step of the run meets the stored chain where it passes it.
  ghost predicate AllMeet(h: Hasher, g: Bytes, c: Client, steps: seq<Step>)
    decreases |steps|
  {
    steps != [] ==> Sane(h, c, steps[0]) && Meets(h, g, c, steps[0]) && AllMeet(h, g, Next(h, g, c, steps[0]), steps[1..])
  }

  lemma {:induction false} RunGood(h: Hasher, g: Bytes, c: Client, steps: seq<Step>)
    requires Good(h, g, c) && AllMeet(h, g, c, steps)
    ensures Good(h, g, Run(h, g, c, steps))
    decreases |steps|
  {
    if steps != [] {
      hide Holds, Sane, Meets, Next;
      StepHolds(h, g, c, steps[0]);
      RunGood(h, g, Next(h, g, c, steps[0]), steps[1..]);
    }
  }

  // ---- One session at a time ----

  // No session is opened while another is open.
  predicate OneAtATime(h: Hasher, g: Bytes, c: Client, steps: seq<Step>)
    decreases |steps|
  {
    steps != [] ==> (steps[0].Open? ==> c.sessions == map[]) && Sane(h, c, steps[0]) && OneAtATime(h, g, Next(h, g, c, steps[0]), steps[1..])
  }

  // The one session there may be stands at the stored head.
  predicate Lone(g: Bytes, c: Client) {
    && (forall s, t :: s in c.sessions && t in c.sessions ==> s == t)
    && (forall s :: s in c.sessions ==> c.sessions[s] == StoredHead(g, c.st))
  }

  lemma LoneMeets(h: Hasher, g: Bytes, c: Client, step: Step)
    requires Lone(g, c)
    ensures Meets(h, g, c, step)
  {
    hide Brought;
  }

  lemma LoneStays(h: Hasher, g: Bytes, c: Client, step: Step)
    requires Good(h, g, c) && Lone(g, c) && Sane(h, c, step) && (step.Open? ==> c.sessions == map[])
    ensures Lone(g, Next(h, g, c, step))
  {
    hide Holds, Chained, TakeRound, ArchiveProtocol.NextEntry, Kept;
    match step
    case Answered(s, a) =>
      if s in c.sessions {
        HeldNumber(h, g, c.st, c.held);
        if Chained(h, c.sessions[s], a.entries) {
          TakeKeepsChain(h, g, c.st, c.held, a.entries, a.head);
          RoundHead(h, c.st, c.sessions[s], a);
        } else {
          RoundRefused(h, c.st, c.sessions[s], a);
        }
      }
    case _ =>
  }

  lemma RoundHead(h: Hasher, st: Store, head: Head, a: Answer)
    ensures TakeRound(h)(st, head, a).st == Take(h, st, head, a.entries, a.head).0 && TakeRound(h)(st, head, a).head == Take(h, st, head, a.entries, a.head).1
  {
  }

  // A device that opens one session at a time never takes in anything that does not meet.
  lemma {:induction false} OneAtATimeMeets(h: Hasher, g: Bytes, c: Client, steps: seq<Step>)
    requires Good(h, g, c) && Lone(g, c) && OneAtATime(h, g, c, steps)
    ensures AllMeet(h, g, c, steps)
    decreases |steps|
  {
    if steps != [] {
      hide Holds, Sane, Meets, Next, Lone;
      LoneMeets(h, g, c, steps[0]);
      LoneStays(h, g, c, steps[0]);
      StepHolds(h, g, c, steps[0]);
      OneAtATimeMeets(h, g, Next(h, g, c, steps[0]), steps[1..]);
    }
  }

  lemma FreshGood(h: Hasher, g: Bytes)
    ensures Good(h, g, Fresh()) && Lone(g, Fresh())
  {
  }

  // ---- Two devices and a relay that forks ----

  // Over any number of syncs and appends of two devices, whatever the relay answered each: if every step met the chain
  // stored, as it does when sessions are opened one at a time, and the two now hold chains that differ at entry k with
  // nothing redacted from k + 1 to m, then a checkpoint of one, at m, warns the other.
  lemma ForkingRelayExposed(h: Hasher, g: Bytes, mine: seq<Step>, theirs: seq<Step>, k: nat, m: nat)
    requires AllMeet(h, g, Fresh(), mine) && AllMeet(h, g, Fresh(), theirs)
    requires var a, b := Run(h, g, Fresh(), mine).held, Run(h, g, Fresh(), theirs).held;
             && NoCollision(h, Head(0, g), a, Head(0, g), b) && 1 <= k <= m <= |a| && m <= |b|
             && a[k - 1].hash != b[k - 1].hash && ContentHeld(a, k - 1, m - 1) && ContentHeld(b, k - 1, m - 1)
    ensures var a, b := Run(h, g, Fresh(), mine).st, Run(h, g, Fresh(), theirs).st;
            m in b.chain && Next(h, g, Run(h, g, Fresh(), mine), Told(m, b.chain[m])).st.warning
  {
    hide AllMeet, Run, Chained, NoCollision, ContentHeld;
    var a, b := Run(h, g, Fresh(), mine), Run(h, g, Fresh(), theirs);
    FreshGood(h, g);
    RunGood(h, g, Fresh(), mine);
    RunGood(h, g, Fresh(), theirs);
    TableAt(b.held, m);
    CheckpointExposesFork(h, g, a.st, a.held, b.held, k, m);
  }

  // The condition is needed. Of two sessions opened together, one is given a and the other b1 and then b2, each a chain that
  // verifies. The table has a's hash at 1 and b2's at 2, nobody was warned, and a member who was given b1 and b2 is not
  // contradicted at 2, although the two differ at 1 and nothing was redacted.
  lemma TwoSessionsMixForks(h: Hasher, g: Bytes, a: Entry, b1: Entry, b2: Entry)
    requires Chained(h, Head(0, g), [a]) && Chained(h, Head(0, g), [b1, b2]) && a.hash != b1.hash
    requires !a.tombstone && !b1.tombstone && !b2.tombstone && a.hash != [] && b1.hash != [] && b2.hash != []
    ensures var mine := Run(h, g, Fresh(), [Open(0), Open(1), Answered(0, Answer([a], Head(1, a.hash))), Answered(1, Answer([b1, b2], Head(2, b2.hash)))]);
            && mine.st.chain == map[1 := a.hash, 2 := b2.hash] && !mine.st.warning
            && !Checked(mine.st, 2, b2.hash).warning
            && (h(2, a.hash, b2.ciphertext) != b2.hash ==> !Holds(h, g, mine.st, mine.held))
  {
    hide Next, Run;
    var first, second := Answered(0, Answer([a], Head(1, a.hash))), Answered(1, Answer([b1, b2], Head(2, b2.hash)));
    FourSteps(h, g, Fresh(), Open(0), Open(1), first, second);
    BothOpen(h, g);
    FirstFork(h, g, a);
    SecondFork(h, g, a, b1, b2);
    assert Run(h, g, Fresh(), [Open(0), Open(1), first, second]) == AfterBoth(a, b2);
    if Holds(h, g, AfterBoth(a, b2).st, [a, b2]) { assert Linked(h, Head(0, g), [a, b2], 1); }
  }

  function Start(g: Bytes): Client {
    Client(EmptyStore(), map[0 := Head(0, g), 1 := Head(0, g)], [])
  }

  function AfterFirst(g: Bytes, a: Entry): Client {
    Client(Store(1, a.hash, map[1 := a.hash], {}, 0, false), map[0 := Head(1, a.hash), 1 := Head(0, g)], [a])
  }

  function AfterBoth(a: Entry, b: Entry): Client {
    Client(Store(2, b.hash, map[1 := a.hash, 2 := b.hash], {}, 0, false), map[0 := Head(1, a.hash), 1 := Head(2, b.hash)], [a, b])
  }

  lemma OneMore(h: Hasher, g: Bytes, c: Client, steps: seq<Step>)
    requires steps != []
    ensures Run(h, g, c, steps) == Run(h, g, Next(h, g, c, steps[0]), steps[1..])
    ensures |steps| == 1 ==> Run(h, g, c, steps) == Next(h, g, c, steps[0])
  {
    hide Next;
  }

  lemma FourSteps(h: Hasher, g: Bytes, c: Client, s0: Step, s1: Step, s2: Step, s3: Step)
    ensures Run(h, g, c, [s0, s1, s2, s3]) == Next(h, g, Next(h, g, Next(h, g, Next(h, g, c, s0), s1), s2), s3)
  {
    hide Next, Run;
    var c1 := Next(h, g, c, s0);
    var c2 := Next(h, g, c1, s1);
    OneMore(h, g, c, [s0, s1, s2, s3]);
    OneMore(h, g, c1, [s1, s2, s3]);
    OneMore(h, g, c2, [s2, s3]);
    OneMore(h, g, Next(h, g, c2, s2), [s3]);
    assert [s0, s1, s2, s3][1..] == [s1, s2, s3] && [s1, s2, s3][1..] == [s2, s3] && [s2, s3][1..] == [s3];
  }

  lemma BothOpen(h: Hasher, g: Bytes)
    ensures Next(h, g, Next(h, g, Fresh(), Open(0)), Open(1)) == Start(g)
  {
  }

  lemma FirstFork(h: Hasher, g: Bytes, a: Entry)
    requires Chained(h, Head(0, g), [a]) && !a.tombstone && a.hash != []
    ensures a.number == 1 && Next(h, g, Start(g), Answered(0, Answer([a], Head(1, a.hash)))) == AfterFirst(g, a)
  {
    hide TakeRound;
    assert Linked(h, Head(0, g), [a], 0);
    RoundOfVerified(h, EmptyStore(), Head(0, g), [a], Head(1, a.hash));
    assert SaveHashes(map[], [a]) == map[1 := a.hash];
    assert Tombstones([a]) == {};
  }

  lemma SecondFork(h: Hasher, g: Bytes, a: Entry, b1: Entry, b2: Entry)
    requires Chained(h, Head(0, g), [b1, b2]) && a.number == 1 && !b1.tombstone && !b2.tombstone && b2.hash != []
    ensures b2.number == 2 && Next(h, g, AfterFirst(g, a), Answered(1, Answer([b1, b2], Head(2, b2.hash)))) == AfterBoth(a, b2)
  {
    hide TakeRound;
    var st := AfterFirst(g, a).st;
    assert Linked(h, Head(0, g), [b1, b2], 0) && Linked(h, Head(0, g), [b1, b2], 1);
    RoundOfVerified(h, st, Head(0, g), [b1, b2], Head(2, b2.hash));
    assert [b1, b2][1..] == [b2] && SaveHashes(st.chain, [b1, b2]) == SaveHashes(st.chain, [b2]) == map[1 := a.hash, 2 := b2.hash];
    assert Tombstones([b1, b2]) == {};
    assert Beyond(1, Head(0, g), [b1, b2]) == [b2];
  }
}
