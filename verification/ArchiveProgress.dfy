/**
 What a session of an honest archive gets done: ArchiveProtocol says that nothing goes wrong in any interleaving, this
 module that a session catches up, that an append refused because someone got in first catches up and goes again, and
 that it gives up after ten refusals and not before.

 Everyone else may do anything in between, at any moment, except get an append in.
 */
module ArchiveProgress {
  import opened Wire
  import opened Archive
  import opened ArchiveProtocol

  // ---- A session's own steps among those of others ----

  predicate Mine(a: Action, s: nat) {
    (a.ReadEntries? || a.ReadHead? || a.Append? || a.Reply? || a.Drop?) && a.s == s
  }

  function Own(actions: seq<Action>, s: nat): seq<Action>
    decreases |actions|
  {
    if actions == [] then []
    else if Mine(actions[0], s) then [actions[0]] + Own(actions[1..], s)
    else Own(actions[1..], s)
  }

  // Reading entries and reading the head by turns.
  function Turns(s: nat, k: nat, head: bool): seq<Action>
    decreases k
  {
    if k == 0 then [] else [if head then ReadHead(s) else ReadEntries(s)] + Turns(s, k - 1, !head)
  }

  // How many fetches it takes to get so many entries; an empty one tells that there are none.
  function PageCount(missing: int): nat
    decreases if missing < 0 then 0 else missing
  {
    if missing <= FETCH_LIMIT then 1 else 1 + PageCount(missing - FETCH_LIMIT)
  }

  function Missing(w: World, s: nat): int
    requires s in w.sessions
  {
    |w.log| - w.sessions[s].head.number
  }

  // What the session still has to do to be level.
  function Left(w: World, s: nat): nat
    requires s in w.sessions
  {
    match w.sessions[s].phase
    case Fetching => 2 * PageCount(Missing(w, s))
    case GotEntries(_) => 2 * PageCount(Missing(w, s)) - 1
    case _ => 0
  }

  // The session is on its way: what it has fetched is what the relay has, and when it is up to date it is level.
  predicate OnTheWay(g: Bytes, w: World, s: nat) {
    && s in w.sessions
    && match w.sessions[s].phase
       case Fetching => true
       case GotEntries(es) => |es| == if Missing(w, s) < FETCH_LIMIT then Missing(w, s) else FETCH_LIMIT
       case UpToDate => w.sessions[s].head == RelayHead(g, w.log)
       case Awaiting(_, _) => false
  }

  lemma SameLengthSameHead(g: Bytes, log: seq<Entry>, log': seq<Entry>)
    requires Grew(log, log') && |log'| == |log|
    ensures RelayHead(g, log') == RelayHead(g, log)
  {
    GrewPrefix(g, log, log', |log|);
    assert Prefix(log, |log|) == log && Prefix(log', |log|) == log';
  }

  // What others do leaves the session as it is.
  lemma OthersStep(h: Hasher, g: Bytes, w: World, a: Action, s: nat)
    requires Inv(h, g, w) && s in w.sessions && !Mine(a, s)
    ensures var w' := Do(h, g, w, a); s in w'.sessions && w'.sessions[s] == w.sessions[s]
  {
    hide Inv, RelayHead, Fetch, StoredHead, Checked, FinishRound, TryAppend, TakeReply;
    match a
    case ReadHead(t) => if Ready(w, t, (p: Phase) => p.GotEntries?) { RoundSessions(h, g, w, t, s); }
    case Append(t, blob) => if Ready(w, t, (p: Phase) => p.UpToDate?) { AppendSessions(h, g, w, t, blob, s); }
    case Reply(t) => if Ready(w, t, (p: Phase) => p.Awaiting?) { ReplySessions(h, w, t, s); }
    case _ =>
  }

  lemma OthersOnTheWay(h: Hasher, g: Bytes, w: World, a: Action, s: nat)
    requires Hashes(h) && Inv(h, g, w) && OnTheWay(g, w, s) && !Mine(a, s) && |Do(h, g, w, a).log| == |w.log|
    ensures var w' := Do(h, g, w, a); OnTheWay(g, w', s) && w'.sessions[s] == w.sessions[s] && Left(w', s) == Left(w, s)
  {
    hide Inv, Hashes, Do, RelayHead, Grew, Forward, PageCount;
    OthersStep(h, g, w, a, s);
    StepKeeps(h, g, w, a);
    SameLengthSameHead(g, w.log, Do(h, g, w, a).log);
  }

  lemma FetchLength(log: seq<Entry>, from: int)
    requires 0 <= from <= |log|
    ensures |Fetch(log, from)| == if |log| - from < FETCH_LIMIT then |log| - from else FETCH_LIMIT
  {
  }

  // Asking for entries.
  lemma AsksOnTheWay(h: Hasher, g: Bytes, w: World, s: nat)
    requires Inv(h, g, w) && OnTheWay(g, w, s) && w.sessions[s].phase.Fetching?
    ensures var w' := Do(h, g, w, ReadEntries(s));
            && OnTheWay(g, w', s) && w'.sessions[s].phase.GotEntries? && Left(w', s) == Left(w, s) - 1 && w'.log == w.log
            && w'.sessions[s].(phase := Fetching) == w.sessions[s]
  {
    hide Inv, RelayHead, Fetch, PageCount;
    NothingAfter(h, g, w, s);
    FetchLength(w.log, w.sessions[s].head.number);
  }

  // Taking them in: fewer are missing, or none is and the session is level.
  lemma TakesOnTheWay(h: Hasher, g: Bytes, w: World, s: nat)
    requires Inv(h, g, w) && OnTheWay(g, w, s) && w.sessions[s].phase.GotEntries?
    ensures var w' := Do(h, g, w, ReadHead(s));
            && OnTheWay(g, w', s) && !w'.sessions[s].phase.GotEntries? && Left(w', s) < Left(w, s) && w'.log == w.log
            && (w'.sessions[s].phase.Fetching? ==> Left(w', s) == Left(w, s) - 1)
            && w'.sessions[s].attempt == w.sessions[s].attempt && w'.sessions[s].device == w.sessions[s].device
            && w'.sessions[s].start == w.sessions[s].start
  {
    hide StoreOk, LogOk, SamePart, Chained, End, Prefix, TakeRound, GrantedOk, RelayHead;
    var x := w.sessions[s];
    assert SessionOk(h, g, w.log, w.stores, x);
    HonestRound(h, g, w.log, w.stores[x.device], x.head, x.phase.entries);
    PagesLeft(Missing(w, s));
  }

  lemma PagesLeft(missing: int)
    ensures PageCount(missing) >= 1
    ensures missing > FETCH_LIMIT ==> PageCount(missing) == 1 + PageCount(missing - FETCH_LIMIT)
  {
  }

  lemma ShorterSoFar(h: Hasher, g: Bytes, w: World, actions: seq<Action>)
    ensures |w.log| <= |Run(h, g, w, actions).log|
    decreases |actions|
  {
    hide Do;
    if actions != [] {
      LogStep(h, g, w, actions[0]);
      ShorterSoFar(h, g, Do(h, g, w, actions[0]), actions[1..]);
    }
  }

  // Nothing more of its own is left to do: a session that is level stays so, whatever is read again.
  lemma LevelStep(h: Hasher, g: Bytes, w: World, s: nat, a: Action)
    requires OnTheWay(g, w, s) && w.sessions[s].phase.UpToDate? && (a == ReadEntries(s) || a == ReadHead(s))
    ensures Do(h, g, w, a) == w
  {
  }

  lemma TurnsNext(s: nat, k: nat, head: bool, own: seq<Action>)
    requires own == Turns(s, k, head) && own != []
    ensures k > 0 && own[0] == (if head then ReadHead(s) else ReadEntries(s)) && own[1..] == Turns(s, k - 1, !head)
  {
  }

  // One own step, in turn.
  lemma OwnStep(h: Hasher, g: Bytes, w: World, s: nat, a: Action, head: bool)
    requires Inv(h, g, w) && OnTheWay(g, w, s) && a == (if head then ReadHead(s) else ReadEntries(s))
    requires w.sessions[s].phase.UpToDate? || w.sessions[s].phase.GotEntries? == head
    ensures var w' := Do(h, g, w, a);
            && OnTheWay(g, w', s) && w'.log == w.log && Left(w', s) <= (if Left(w, s) == 0 then 0 else Left(w, s) - 1)
            && (w'.sessions[s].phase.UpToDate? || w'.sessions[s].phase.GotEntries? == !head)
            && w'.sessions[s].attempt == w.sessions[s].attempt && w'.sessions[s].device == w.sessions[s].device
            && w'.sessions[s].start == w.sessions[s].start
  {
    hide Inv, Do, RelayHead, Missing, PageCount;
    if w.sessions[s].phase.UpToDate? { LevelStep(h, g, w, s, a); }
    else if head { TakesOnTheWay(h, g, w, s); }
    else { AsksOnTheWay(h, g, w, s); }
  }

  // In any interleaving in which nobody gets an append in, a session that takes its turns as often as there is something
  // left ends level with the relay.
  lemma {:induction false} GetsLevel(h: Hasher, g: Bytes, w: World, s: nat, actions: seq<Action>, k: nat, head: bool)
    requires Hashes(h) && Inv(h, g, w) && OnTheWay(g, w, s)
    requires Own(actions, s) == Turns(s, k, head) && k >= Left(w, s)
    requires w.sessions[s].phase.UpToDate? || w.sessions[s].phase.GotEntries? == head
    requires |Run(h, g, w, actions).log| == |w.log|
    ensures var w' := Run(h, g, w, actions);
            && Inv(h, g, w') && s in w'.sessions && w'.sessions[s].phase.UpToDate? && w'.sessions[s].head == RelayHead(g, w'.log)
            && w'.sessions[s].attempt == w.sessions[s].attempt && w'.sessions[s].device == w.sessions[s].device
            && w'.sessions[s].start == w.sessions[s].start
    decreases |actions|
  {
    hide Inv, Hashes, Do, Turns, RelayHead, Left;
    if actions == [] {
      NothingLeft(g, w, s, k, head);
    } else {
      var a, w1 := actions[0], Do(h, g, w, actions[0]);
      StepKeeps(h, g, w, a);
      LogStep(h, g, w, a);
      ShorterSoFar(h, g, w1, actions[1..]);
      if Mine(a, s) {
        TurnsNext(s, k, head, Own(actions, s));
        OwnStep(h, g, w, s, a, head);
        GetsLevel(h, g, w1, s, actions[1..], k - 1, !head);
      } else {
        OthersOnTheWay(h, g, w, a, s);
        GetsLevel(h, g, w1, s, actions[1..], k, head);
      }
    }
  }

  lemma NothingLeft(g: Bytes, w: World, s: nat, k: nat, head: bool)
    requires OnTheWay(g, w, s) && [] == Turns(s, k, head) && k >= Left(w, s)
    ensures w.sessions[s].phase.UpToDate?
  {
    PagesLeft(Missing(w, s));
  }

  // ---- An append that was refused goes again ----

  // The relay refuses this append: someone else got in first.
  predicate Refused(g: Bytes, w: World, a: Action, s: nat) {
    && a.Append? && a.s == s && Ready(w, s, (p: Phase) => p.UpToDate?)
    && a.blob != [] && w.sessions[s].head.number < TWO64 - 1 && RelayHead(g, w.log) != w.sessions[s].head
  }

  lemma AfterRefusal(h: Hasher, g: Bytes, w: World, a: Action, s: nat)
    requires Refused(g, w, a, s)
    ensures var w' := Do(h, g, w, a);
            && w'.log == w.log && w'.stores == w.stores
            && (s in w'.sessions <==> w.sessions[s].attempt + 1 < APPEND_ATTEMPTS)
            && (s in w'.sessions ==> w'.sessions[s] == w.sessions[s].(phase := Fetching, attempt := w.sessions[s].attempt + 1))
  {
    hide RelayHead;
  }

  // The log is longer by exactly one entry, which holds this blob.
  predicate ExtendedBy(log: seq<Entry>, log': seq<Entry>, blob: Bytes) {
    && |log'| == |log| + 1 && log'[..|log|] == log
    && log'[|log|].number == |log| + 1 && log'[|log|].ciphertext == blob && !log'[|log|].tombstone
  }

  // A level session's append gets in.
  lemma AppendGetsIn(h: Hasher, g: Bytes, w: World, s: nat, blob: Bytes)
    requires Hashes(h) && Inv(h, g, w) && s in w.sessions && w.sessions[s].phase.UpToDate? && w.sessions[s].head == RelayHead(g, w.log)
    requires blob != [] && |w.log| < TWO64 - 1
    ensures var w' := Do(h, g, w, Append(s, blob));
            && ExtendedBy(w.log, w'.log, blob) && w'.stores == w.stores && s in w'.sessions && w'.sessions[s].device == w.sessions[s].device
            && w'.sessions[s].phase.Awaiting?
  {
    hide Inv, Hashes, RelayHead;
    LevelSession(h, g, w, s);
    NothingAfter(h, g, w, s);
    var e := NextEntry(h, w.sessions[s].head, blob);
    assert (w.log + [e])[..|w.log|] == w.log;
  }

  // The reply ends the session, and the device holds the entry.
  lemma ReplyIsHeld(h: Hasher, g: Bytes, w: World, s: nat)
    requires Hashes(h) && Inv(h, g, w) && s in w.sessions && w.sessions[s].phase.Awaiting?
    ensures var w', x := Do(h, g, w, Reply(s)), w.sessions[s];
            && s !in w'.sessions && x.device in w'.stores && 0 <= x.head.number < |w.log| && x.head.number + 1 in w'.stores[x.device].chain
            && w'.stores[x.device].chain[x.head.number + 1] == w.log[x.head.number].hash && w'.log == w.log
  {
    hide LogOk, StoreOk, SamePart, GrantedOk, PostedOk, Kept;
    var x := w.sessions[s];
    assert SessionOk(h, g, w.log, w.stores, x) && LogOk(h, g, w.log) && StoreOk(g, w.log, w.stores[x.device]);
    TakenIn(h, g, w.log, w.stores, x);
  }

  lemma TakenIn(h: Hasher, g: Bytes, log: seq<Entry>, stores: map<nat, Store>, x: Session)
    requires LogOk(h, g, log) && SessionOk(h, g, log, stores, x) && StoreOk(g, log, stores[x.device]) && x.phase.Awaiting?
    ensures var st' := Kept(stores[x.device], [NextEntry(h, x.head, x.phase.blob)], x.phase.newHead);
            && x.head.number + 1 in st'.chain && st'.chain[x.head.number + 1] == log[x.head.number].hash
  {
    hide Chained, Kept, HashTable;
    var e := NextEntry(h, x.head, x.phase.blob);
    assert SamePart([e], log, x.head.number);
    EndOfPart(g, log, x.head, [e]);
    LogFacts(h, g, log);
    StoreTakes(g, log, stores[x.device], [e], x.head.number);
    var st' := Kept(stores[x.device], [e], x.phase.newHead);
    TableAt(Prefix(log, st'.number), x.head.number + 1);
  }

  lemma LogFacts(h: Hasher, g: Bytes, log: seq<Entry>)
    requires LogOk(h, g, log)
    ensures Numbered(log, 0) && forall i :: 0 <= i < |log| ==> log[i].hash != []
  {
  }

  // Refused with fewer than nine refusals before: after its own catch-up, in any interleaving in which nobody gets in
  // again, the next append makes the log longer by exactly its own entry, and the reply puts it in the device's table.
  lemma RefusedGoesAgain(h: Hasher, g: Bytes, w: World, s: nat, first: Bytes, actions: seq<Action>, k: nat, blob: Bytes)
    requires Hashes(h) && Inv(h, g, w) && Refused(g, w, Append(s, first), s) && w.sessions[s].attempt + 1 < APPEND_ATTEMPTS
    requires Own(actions, s) == Turns(s, k, false) && k >= 2 * PageCount(Missing(w, s))
    requires |Run(h, g, w, [Append(s, first)] + actions).log| == |w.log|
    requires blob != [] && |w.log| < TWO64 - 1
    ensures var w' := Run(h, g, w, [Append(s, first)] + actions);
            var w'', end := Do(h, g, w', Append(s, blob)), Do(h, g, Do(h, g, w', Append(s, blob)), Reply(s));
            && |w'.log| == |w.log| && ExtendedBy(w'.log, w''.log, blob) && end.log == w''.log
            && w.sessions[s].device in end.stores && |w.log| + 1 in end.stores[w.sessions[s].device].chain
            && end.stores[w.sessions[s].device].chain[|w.log| + 1] == w''.log[|w.log|].hash && s !in end.sessions
  {
    hide Inv, Hashes, Do, Refused, RelayHead, Run, Turns, PageCount;
    var a := Append(s, first);
    var w1 := Do(h, g, w, a);
    AfterRefusal(h, g, w, a, s);
    StepKeeps(h, g, w, a);
    RunTwice(h, g, w, [a], actions);
    OneStep(h, g, w, a);
    GetsLevel(h, g, w1, s, actions, k, false);
    var w' := Run(h, g, w1, actions);
    AppendGetsIn(h, g, w', s, blob);
    StepKeeps(h, g, w', Append(s, blob));
    LevelSession(h, g, w', s);
    AwaitsSame(h, g, w', s, blob);
    ReplyIsHeld(h, g, Do(h, g, w', Append(s, blob)), s);
  }

  lemma AwaitsSame(h: Hasher, g: Bytes, w: World, s: nat, blob: Bytes)
    requires s in w.sessions
    ensures var w' := Do(h, g, w, Append(s, blob)); s in w'.sessions ==> w'.sessions[s].head == w.sessions[s].head
  {
    hide RelayHead;
  }

  lemma OneStep(h: Hasher, g: Bytes, w: World, a: Action)
    ensures Run(h, g, w, [a]) == Do(h, g, w, a)
  {
    hide Do;
    assert [a][1..] == [] && Run(h, g, w, [a]) == Run(h, g, Do(h, g, w, a), []);
  }

  // ---- Giving up ----

  function Refusals(h: Hasher, g: Bytes, w: World, actions: seq<Action>, s: nat): nat
    decreases |actions|
  {
    if actions == [] then 0
    else (if Refused(g, w, actions[0], s) then 1 else 0) + Refusals(h, g, Do(h, g, w, actions[0]), actions[1..], s)
  }

  // What a step does to the number of attempts of a session that is still there.
  lemma AttemptStep(h: Hasher, g: Bytes, w: World, a: Action, s: nat)
    requires Inv(h, g, w)
    ensures var w' := Do(h, g, w, a);
            && (s in w.sessions && s in w'.sessions ==> w'.sessions[s].attempt == w.sessions[s].attempt + if Refused(g, w, a, s) then 1 else 0)
            && (s !in w.sessions && !(a.Open? && a.s == s) ==> s !in w'.sessions)
  {
    hide Inv, RelayHead, Fetch, StoredHead, Checked, TakeRound;
    if s in w.sessions && !Mine(a, s) {
      hide Do;
      OthersStep(h, g, w, a, s);
    } else if Refused(g, w, a, s) {
      hide Do;
      AfterRefusal(h, g, w, a, s);
    }
  }

  // The session gives up with a refusal exactly when that is the tenth: as long as it is there, it has been refused fewer
  // than ten times, and a refusal ends it if and only if nine came before.
  lemma {:induction false} GivesUpAtTen(h: Hasher, g: Bytes, w: World, s: nat, actions: seq<Action>, a: Action)
    requires Hashes(h) && Inv(h, g, w) && s in w.sessions && w.sessions[s].attempt < APPEND_ATTEMPTS
    requires forall i :: 0 <= i < |actions| ==> !(actions[i].Open? && actions[i].s == s)
    ensures var w' := Run(h, g, w, actions);
            var before := w.sessions[s].attempt + Refusals(h, g, w, actions, s);
            && (s in w'.sessions ==> w'.sessions[s].attempt == before < APPEND_ATTEMPTS)
            && before <= APPEND_ATTEMPTS
            && (Refused(g, w', a, s) ==> (s in Do(h, g, w', a).sessions <==> before + 1 < APPEND_ATTEMPTS))
    decreases |actions|
  {
    hide Inv, Hashes, Do, Refused;
    if actions == [] {
      if Refused(g, w, a, s) { AfterRefusal(h, g, w, a, s); }
    } else {
      var w1 := Do(h, g, w, actions[0]);
      StepKeeps(h, g, w, actions[0]);
      AttemptStep(h, g, w, actions[0], s);
      if Refused(g, w, actions[0], s) { AfterRefusal(h, g, w, actions[0], s); }
      if s in w1.sessions { GivesUpAtTen(h, g, w1, s, actions[1..], a); } else { GoneStays(h, g, w1, s, actions[1..], a); }
    }
  }

  lemma {:induction false} GoneStays(h: Hasher, g: Bytes, w: World, s: nat, actions: seq<Action>, a: Action)
    requires Hashes(h) && Inv(h, g, w) && s !in w.sessions
    requires forall i :: 0 <= i < |actions| ==> !(actions[i].Open? && actions[i].s == s)
    ensures s !in Run(h, g, w, actions).sessions && Refusals(h, g, w, actions, s) == 0 && !Refused(g, Run(h, g, w, actions), a, s)
    decreases |actions|
  {
    if actions != [] {
      hide Inv, Hashes, Do;
      StepKeeps(h, g, w, actions[0]);
      AttemptStep(h, g, w, actions[0], s);
      GoneStays(h, g, Do(h, g, w, actions[0]), s, actions[1..], a);
    }
  }

  // ---- A sync ----

  // A session opened on any device, in any interleaving in which nobody gets an append in, ends level, and has handed on
  // exactly the entries the device had not had when it was opened.
  lemma SyncGetsAll(h: Hasher, g: Bytes, w: World, s: nat, d: nat, actions: seq<Action>, k: nat)
    requires Hashes(h) && Inv(h, g, w) && d in w.stores && s !in w.sessions
    requires Own(actions, s) == Turns(s, k, false) && k >= 2 * PageCount(|w.log| - w.stores[d].number)
    requires |Run(h, g, w, [Open(s, d)] + actions).log| == |w.log|
    ensures var w' := Run(h, g, w, [Open(s, d)] + actions);
            && s in w'.sessions && w'.sessions[s].phase.UpToDate? && |w'.log| == |w.log|
            && |w'.sessions[s].added| == |w.log| - w.stores[d].number && SamePart(w'.sessions[s].added, w'.log, w.stores[d].number)
            && d in w'.stores && w'.stores[d].number == |w.log|
  {
    hide Inv, Hashes, RelayHead, Run, Do, Turns, PageCount, SamePart, Grew, Forward;
    var a := Open(s, d);
    var w1 := Do(h, g, w, a);
    StepKeeps(h, g, w, a);
    OpensAt(h, g, w, s, d);
    RunTwice(h, g, w, [a], actions);
    OneStep(h, g, w, a);
    GetsLevel(h, g, w1, s, actions, k, false);
    LevelMeans(h, g, Run(h, g, w1, actions), s);
  }

  // A level session has handed on everything from where it started, and its device holds it all.
  lemma LevelMeans(h: Hasher, g: Bytes, w: World, s: nat)
    requires Inv(h, g, w) && s in w.sessions && w.sessions[s].head == RelayHead(g, w.log)
    ensures var x := w.sessions[s];
            && |x.added| == |w.log| - x.start && SamePart(x.added, w.log, x.start)
            && x.device in w.stores && w.stores[x.device].number == |w.log|
  {
    hide LogOk, SamePart, End, HashTable, PhaseOk, GrantedOk, PostedOk;
    LevelSession(h, g, w, s);
    var x := w.sessions[s];
    assert SessionOk(h, g, w.log, w.stores, x) && StoreOk(g, w.log, w.stores[x.device]);
  }

  lemma OpensAt(h: Hasher, g: Bytes, w: World, s: nat, d: nat)
    requires Inv(h, g, w) && d in w.stores && s !in w.sessions
    ensures var w' := Do(h, g, w, Open(s, d));
            && s in w'.sessions && w'.sessions[s].phase == Fetching && w'.sessions[s].head.number == w.stores[d].number == w'.sessions[s].start
            && w'.sessions[s].device == d && w'.log == w.log
  {
    hide SessionOk, GrantedOk, PostedOk, HashTable, Chained;
    assert StoreOk(g, w.log, w.stores[d]);
    LogFacts(h, g, w.log);
    HeadNumber(g, w.log, w.stores[d].number);
  }

  // ---- A redaction ----

  predicate IsRedacted(log: seq<Entry>, n: int) {
    1 <= n <= |log| && log[n - 1].tombstone && log[n - 1].ciphertext == []
  }

  lemma StaysRedacted(log: seq<Entry>, log': seq<Entry>, n: int)
    requires Grew(log, log') && IsRedacted(log, n)
    ensures IsRedacted(log', n)
  {
  }

  // Once an entry is redacted, its content is gone for good, whatever happens, and a session that fetches it gets a
  // tombstone with the hash that holds its place.
  lemma RedactedForGood(h: Hasher, g: Bytes, w: World, n: int, actions: seq<Action>, from: int)
    requires Hashes(h) && Inv(h, g, w) && 1 <= n <= |w.log| && 0 <= from < n <= from + FETCH_LIMIT
    ensures var w' := Run(h, g, w, [Redact(n)] + actions);
            && IsRedacted(w'.log, n) && w'.log[n - 1].hash == w.log[n - 1].hash
            && |Fetch(w'.log, from)| >= n - from && Fetch(w'.log, from)[n - 1 - from] == w'.log[n - 1]
  {
    hide Inv, Hashes, Do, Run, Forward;
    var w1 := Do(h, g, w, Redact(n));
    assert w1.log == w.log[n - 1 := Redacted(w.log[n - 1])] by { Redacts(h, g, w, n); }
    StepKeeps(h, g, w, Redact(n));
    RunKeeps(h, g, w1, actions);
    RunTwice(h, g, w, [Redact(n)], actions);
    OneStep(h, g, w, Redact(n));
    StaysRedacted(w1.log, Run(h, g, w1, actions).log, n);
  }

  lemma Redacts(h: Hasher, g: Bytes, w: World, n: int)
    requires 1 <= n <= |w.log|
    ensures Do(h, g, w, Redact(n)).log == w.log[n - 1 := Redacted(w.log[n - 1])]
  {
  }

  // ---- A checkpoint ----

  // A checkpoint one member posts and another reads is noted there, and an honest relay is not suspected for it.
  lemma CheckpointNoted(h: Hasher, g: Bytes, w: World, d: nat, e: nat)
    requires Hashes(h) && Inv(h, g, w) && d in w.stores && e in w.stores && w.stores[d].number > 0
    ensures var w' := Do(h, g, Do(h, g, w, Post(d)), Read(e, (w.stores[d].number, w.stores[d].hash)));
            && e in w'.stores && w'.stores[e].checkpointSeen >= w.stores[d].number && w'.stores[e].checkpointSeen >= w.stores[e].checkpointSeen
            && w'.stores[e].warning == w.stores[e].warning && w'.stores[e].chain == w.stores[e].chain
  {
    hide Inv, Hashes;
    StepKeeps(h, g, w, Post(d));
    KeepRead(h, g, Do(h, g, w, Post(d)), e, (w.stores[d].number, w.stores[d].hash));
  }
}
