/**
 Envelopes, one-time prekeys, acknowledgements and crashes (client/messaging_engine.cpp: process_envelope and pump;
 client/prekey_vault.cpp).

 The relay keeps an envelope until it is acknowledged and may deliver it again at any time. A crash may come after any
 number of an envelope's records, before or after its prekey is erased, and before its acknowledgement.
 */
module Redelivery {
  import opened Wire
  import opened Intake
  import opened Handling

  // ---- The same envelope again ----

  lemma {:induction false} MemberRoute(env: Env, st: State, sender: Bytes, introduced: seq<Bytes>, rs: seq<Rec>)
    ensures var o := HandleAll(env, st, FromMember, sender, introduced, rs);
            o.st.introduced == st.introduced && o.st.convs == st.convs && o.st.invites.Keys == st.invites.Keys
    decreases |rs|
  {
    if rs != [] {
      hide HasMessage, IsMessage, Bound, GroupOf;
      MemberRoute(env, st, sender, introduced, rs[..|rs| - 1]);
    }
  }

  // Handling an envelope does not change the way the same envelope would be handled.
  lemma RouteKept(env: Env, st: State, inner: Inner, k: nat)
    ensures var rs := Parsed(env, inner.records);
            RouteOf(env, Process(env, st, inner, k).st, inner, rs) == RouteOf(env, st, inner, rs)
  {
    hide HandleAll, RowsAfter, Stops, Verified;
    var rs := Parsed(env, inner.records);
    ProcessRows(env, st, inner, k);
    if RouteOf(env, st, inner, rs) == FromMember {
      MemberRoute(env, st, rs[0].sender, inner.introduced, Upto(rs, k));
    }
  }

  lemma GateForKept(env: Env, st: State, st': State, inner: Inner, rows: seq<Row>, rs: seq<Rec>)
    requires SameGate(env, st.convs, st'.convs, Sender(env, inner))
    requires RouteOf(env, st', inner, Parsed(env, inner.records)) == RouteOf(env, st, inner, Parsed(env, inner.records))
    ensures RowsAfter(GateFor(env, st', inner), rows, rs) == RowsAfter(GateFor(env, st, inner), rows, rs)
  {
    hide RouteOf, Admits, Throws;
    var route, sender := RouteOf(env, st, inner, Parsed(env, inner.records)), Sender(env, inner);
    forall r ensures Admits(env, st'.convs, route, sender, r) == Admits(env, st.convs, route, sender, r)
                 && Throws(env, st'.convs, route, sender, r) == Throws(env, st.convs, route, sender, r)
    {
      GateKept(env, st.convs, st'.convs, route, sender, r);
    }
    SameRows(GateFor(env, st', inner), GateFor(env, st, inner), rows, rs);
  }

  lemma {:induction false} SameRows(gate: Gate, gate': Gate, rows: seq<Row>, rs: seq<Rec>)
    requires forall r :: gate.accepts(r) == gate'.accepts(r) && gate.throws(r) == gate'.throws(r)
    ensures RowsAfter(gate, rows, rs) == RowsAfter(gate', rows, rs)
    decreases |rs|
  {
    if rs != [] {
      hide AddRow;
      SameRows(gate, gate', rows, rs[..|rs| - 1]);
      assert Stops(gate, rs) == Stops(gate', rs);
    }
  }

  // A crash after any number of records, then the envelope again: the messages are those of one undisturbed delivery.
  lemma CrashThenRedelivery(env: Env, st: State, inner: Inner, k: nat)
    ensures var all := |Parsed(env, inner.records)|;
            Process(env, Process(env, st, inner, k).st, inner, all).st.rows == Process(env, st, inner, all).st.rows
  {
    hide Process, RowsAfter, Stops, SameGate, GateFor, Parsed;
    var rs := Parsed(env, inner.records);
    var gate, st' := GateFor(env, st, inner), Process(env, st, inner, k).st;
    var n := if k < |rs| then k else |rs|;
    assert Upto(rs, |rs|) == rs && Upto(rs, k) == rs[..n];
    ProcessRows(env, st, inner, k);
    ProcessRows(env, st, inner, |rs|);
    ProcessRows(env, st', inner, |rs|);
    RouteKept(env, st, inner, k);
    GateForKept(env, st, st', inner, st'.rows, rs);
    AgainFromTheStart(gate, st.rows, rs, n);
  }

  // Delivered whole and then again, up to any record: nothing changes.
  lemma RedeliveryChangesNothing(env: Env, st: State, inner: Inner, k: nat)
    ensures var all := |Parsed(env, inner.records)|;
            var st' := Process(env, st, inner, all).st;
            Process(env, st', inner, k).st.rows == st'.rows
  {
    hide Process, RowsAfter, SameGate, GateFor, Parsed, HasMessage;
    var rs := Parsed(env, inner.records);
    var gate, st' := GateFor(env, st, inner), Process(env, st, inner, |rs|).st;
    var n := if k < |rs| then k else |rs|;
    assert Upto(rs, |rs|) == rs && Upto(rs, k) == rs[..n];
    ProcessRows(env, st, inner, |rs|);
    ProcessRows(env, st', inner, k);
    RouteKept(env, st, inner, |rs|);
    GateForKept(env, st, st', inner, st'.rows, rs[..n]);
    forall i | Wanted(gate, rs[..n], i) ensures HasMessage(st'.rows, rs[i].conv, rs[i].id) {
      assert rs[..n][..i + 1] == rs[..i + 1];
      WantedIsHeld(gate, st.rows, rs, i);
    }
    NothingNew(gate, st'.rows, rs[..n]);
  }

  // In a state that has moved on, a redelivery leaves the messages as they are exactly when all those it would now
  // store are held already.
  lemma RedeliveredLater(env: Env, st: State, inner: Inner)
    ensures var rs, gate := Parsed(env, inner.records), GateFor(env, st, inner);
            Process(env, st, inner, |rs|).st.rows == st.rows <==>
              forall i :: Wanted(gate, rs, i) ==> HasMessage(st.rows, rs[i].conv, rs[i].id)
  {
    hide Process, RowsAfter, SameGate, GateFor, Parsed, HasMessage, Wanted;
    var rs := Parsed(env, inner.records);
    assert Upto(rs, |rs|) == rs;
    ProcessRows(env, st, inner, |rs|);
    NothingNew(GateFor(env, st, inner), st.rows, rs);
  }

  // It can store more: a message for a group that was joined only after the first delivery.
  lemma JoinedMeanwhile(env: Env, st: State, raw: Bytes, members: seq<Bytes>)
    requires env.parse(raw).Some?
    requires var r := env.parse(raw).value;
             && r.kind == Text && r.sender != env.me && r.sender in st.contacts && env.signedBy(r.raw, r.sender)
             && r.conv !in st.convs && r.conv !in st.invites && r.conv != env.conversationId(env.me, r.sender)
             && r.sender in members && r.recipients == env.recipientsHash([env.me] + members)
             && !HasMessage(st.rows, r.conv, r.id)
    ensures var r, inner := env.parse(raw).value, Inner(None, [raw], []);
            && Process(env, st, inner, 1).st == st
            && Process(env, CreateGroup(st, r.conv, r.sender, members), inner, 1).st.rows == st.rows + [Row(r.conv, r.id, false, r)]
  {
    hide HasMessage;
    var r := env.parse(raw).value;
    assert Parsed(env, [raw]) == [r];
    var later := CreateGroup(st, r.conv, r.sender, members);
    assert [r][..1] == [r] && [r][..0] == [];
    assert HandleAll(env, st, FromContact, r.sender, [], [r]) == HandleOne(env, st, FromContact, r.sender, [], r);
    assert HandleAll(env, later, FromContact, r.sender, [], [r]) == HandleOne(env, later, FromContact, r.sender, [], r);
  }

  // ---- Prekeys, acknowledgements and crashes ----

  // `prekey` is the one it was sealed to, if any; `inner` is what opening it gives.
  datatype Envelope = Envelope(id: Bytes, prekey: Option<Bytes>, inner: Option<Inner>)

  // The state an envelope was handled to the end in, and whether it opened then.
  datatype Handled = Handled(st: State, readable: bool)

  // The vault maps a prekey to whether it is a last resort. `queue` is what the relay still holds, `toAck` what this
  // run of the program will acknowledge; the rest is history: every one-time prekey made, those erased after use,
  // every envelope that ever came, those acknowledged, how each was handled to the end, and what they left waiting: what
  // still does, what the user declined, what they took up and in which state, and what was taken away unread.
  datatype World = World(st: State, vault: map<Bytes, bool>, queue: set<Envelope>, toAck: set<Envelope>,
                         made: set<Bytes>, spent: set<Bytes>, seen: set<Envelope>, acked: set<Envelope>, handled: map<Envelope, Handled>,
                         waiting: set<Item>, declined: set<Item>, taken: set<(Item, State)>, unread: set<Item>)

  datatype Event =
    | MakePrekey(id: Bytes, lastResort: bool)
    | LosePrekeys
    | Arrive(e: Envelope)
    | CrashIn(e: Envelope, k: nat)
    | Take(e: Envelope)
    | Acknowledge
    | Restart
    | Elsewhere(a: Action)

  predicate Opens(vault: map<Bytes, bool>, e: Envelope) {
    e.inner.Some? && (e.prekey.Some? ==> e.prekey.value in vault)
  }

  function Count(env: Env, e: Envelope): nat
    requires e.inner.Some?
  {
    |Parsed(env, e.inner.value.records)|
  }

  function Noted(handled: map<Envelope, Handled>, e: Envelope, h: Handled): map<Envelope, Handled> {
    if e in handled && handled[e].readable then handled else handled[e := h]
  }

  // pump, for one envelope: handled and stored, then its one-time prekey is erased, and it will be acknowledged. An
  // exception leaves it for another time.
  function DoTake(env: Env, w: World, e: Envelope): World {
    if !Opens(w.vault, e) then w.(toAck := w.toAck + {e}, handled := Noted(w.handled, e, Handled(w.st, false)))
    else
      var o := Process(env, w.st, e.inner.value, Count(env, e));
      if o.threw then w.(st := o.st)
      else
        var w' := w.(st := o.st, toAck := w.toAck + {e}, handled := Noted(w.handled, e, Handled(w.st, true)),
                     waiting := w.waiting + Items(env, w.st, e.inner.value));
        if e.prekey.Some? && e.prekey.value in w.vault && !w.vault[e.prekey.value]
        then w'.(vault := w.vault - {e.prekey.value}, spent := w.spent + {e.prekey.value}) else w'
  }

  // What a request the user accepts leaves waiting: the invitations in it, and what goes with them.
  function LeftOver(env: Env, st: State, a: Action): set<Item> {
    if !a.TakeRequest? || FirstOf(st.requests, a.sender, a.n) == [] then {}
    else
      var q, st1 := Merged(FirstOf(st.requests, a.sender, a.n), a.sender), st.(contacts := st.contacts + {a.sender});
      set i | 0 <= i < |q.records| && DelaysAt(env, st1, FromContact, a.sender, q.introduced, q.records, i)
              && !HandleAll(env, st1, FromContact, a.sender, q.introduced, q.records[..i]).threw :: InInvite(q.records[i].conv, q.records[i])
  }

  // What becomes of the items that wait, with a step outside of any envelope.
  function Still(env: Env, w: World, a: Action): set<Item> {
    (set it | it in w.waiting && !Removed(env, w.st, a, it)) + LeftOver(env, w.st, a)
  }

  function Declined(env: Env, w: World, a: Action): set<Item> {
    set it | it in w.waiting && Removed(env, w.st, a, it) && !Unread(env, w.st, a, it) && !(a.TakeRequest? || a.TakeInvite?)
  }

  function Taken(env: Env, w: World, a: Action): set<(Item, State)> {
    set it | it in w.waiting && Removed(env, w.st, a, it) && !Unread(env, w.st, a, it) && (a.TakeRequest? || a.TakeInvite?) :: (it, w.st)
  }

  function UnreadBy(env: Env, w: World, a: Action): set<Item> {
    set it | it in w.waiting && Unread(env, w.st, a, it)
  }

  function Happen(env: Env, w: World, ev: Event): World {
    match ev
    case MakePrekey(id, lastResort) =>
      if id in w.vault || id in w.made || exists e :: e in w.seen && e.prekey == Some(id) then w
      else w.(vault := w.vault[id := lastResort], made := if lastResort then w.made else w.made + {id})
    case LosePrekeys => w.(vault := map[])
    case Arrive(e) =>
      if e in w.seen then w else w.(queue := w.queue + {e}, seen := w.seen + {e})
    case CrashIn(e, k) =>
      if e in w.queue && Opens(w.vault, e) then w.(st := Process(env, w.st, e.inner.value, k).st, toAck := {}) else w
    case Take(e) => if e in w.queue then DoTake(env, w, e) else w
    case Acknowledge => w.(queue := w.queue - w.toAck, acked := w.acked + w.toAck, toAck := {})
    case Restart => w.(toAck := {})
    case Elsewhere(a) =>
      w.(st := Do(env, w.st, a), waiting := Still(env, w, a), declined := w.declined + Declined(env, w, a),
         taken := w.taken + Taken(env, w, a), unread := w.unread + UnreadBy(env, w, a))
  }

  function RunOf(env: Env, w: World, events: seq<Event>): World
    decreases |events|
  {
    if events == [] then w else RunOf(env, Happen(env, w, events[0]), events[1..])
  }

  function Begin(): World {
    World(Nothing(), map[], {}, {}, {}, {}, {}, {}, map[], {}, {}, {}, {})
  }

  // Everything the envelope held for this user, as things stood when it was handled, is among the messages.
  ghost predicate ContentHeld(env: Env, rows: seq<Row>, e: Envelope, h: Handled) {
    h.readable ==>
      && e.inner.Some?
      && var rs, gate := Parsed(env, e.inner.value.records), GateFor(env, h.st, e.inner.value);
         forall i :: Wanted(gate, rs, i) ==> HasMessage(rows, rs[i].conv, rs[i].id)
  }

  // Everything else it held for them waits, or was decided about, or was taken away unread.
  predicate ItemsKept(env: Env, known: set<Item>, e: Envelope, h: Handled) {
    h.readable ==> e.inner.Some? && Items(env, h.st, e.inner.value) <= known
  }

  function Known(w: World): set<Item> {
    w.waiting + w.declined + (set p | p in w.taken :: p.0) + w.unread
  }

  // This one-time prekey was used to open an envelope that was handled to the end.
  ghost predicate UsedUp(w: World, p: Bytes) {
    p in w.made && exists e :: e in w.seen && e.prekey == Some(p) && e in w.handled && w.handled[e].readable
  }

  ghost predicate Safe(env: Env, w: World) {
    && Inv(env, w.st)
    && w.queue <= w.seen && w.toAck <= w.handled.Keys && w.acked <= w.handled.Keys
    && (forall e :: e in w.handled ==> ContentHeld(env, w.st.rows, e, w.handled[e]) && ItemsKept(env, Known(w), e, w.handled[e]))
    && (forall it :: it in w.waiting ==> Waits(w.st, it)) && (forall p :: p in w.taken ==> TakenUp(env, p.1, p.0, w.st.rows))
    && (forall p :: p in w.spent ==> UsedUp(w, p))
    && (forall p :: p in w.vault ==> (w.vault[p] <==> p !in w.made)) && w.vault.Keys !! w.spent
  }

  lemma ContentStays(env: Env, rows: seq<Row>, rows': seq<Row>, e: Envelope, h: Handled)
    requires ContentHeld(env, rows, e, h) && rows <= rows'
    ensures ContentHeld(env, rows', e, h)
  {
    hide Parsed, GateFor, HasMessage, Stops;
    if h.readable {
      var rs, gate := Parsed(env, e.inner.value.records), GateFor(env, h.st, e.inner.value);
      forall i | Wanted(gate, rs, i) ensures HasMessage(rows', rs[i].conv, rs[i].id) { HeldLater(rows, rows', rs[i].conv, rs[i].id); }
    }
  }

  // The stored state moves on, items change their place, and none is forgotten.
  lemma MoveOn(env: Env, w: World, w': World)
    requires Safe(env, w) && Keeps(env, w.st, w'.st) && Known(w) <= Known(w')
    requires w' == w.(st := w'.st, waiting := w'.waiting, declined := w'.declined, taken := w'.taken, unread := w'.unread)
    requires (forall it :: it in w'.waiting ==> Waits(w'.st, it)) && forall p :: p in w'.taken ==> TakenUp(env, p.1, p.0, w'.st.rows)
    ensures Safe(env, w')
  {
    hide Inv, ContentHeld, Items, Waits, TakenUp, Known;
    forall e | e in w.handled ensures ContentHeld(env, w'.st.rows, e, w.handled[e]) && ItemsKept(env, Known(w'), e, w.handled[e]) {
      ContentStays(env, w.st.rows, w'.st.rows, e, w.handled[e]);
      assert ItemsKept(env, Known(w), e, w.handled[e]);
    }
    forall p | p in w.spent ensures UsedUp(w', p) { assert UsedUp(w, p); }
  }

  lemma StateStep(env: Env, w: World, st: State)
    requires Safe(env, w) && Keeps(env, w.st, st) && forall it :: it in w.waiting ==> Waits(st, it)
    ensures Safe(env, w.(st := st))
  {
    hide Inv, ContentHeld, ItemsKept, Waits, TakenUp, UsedUp;
    forall p | p in w.taken ensures TakenUp(env, p.1, p.0, st.rows) { TakenUpLater(env, p.1, p.0, w.st.rows, st.rows); }
    MoveOn(env, w, w.(st := st));
  }

  // An envelope leaves what waited waiting.
  lemma ProcessStep(env: Env, w: World, inner: Inner, k: nat)
    requires EnvOk(env) && Safe(env, w)
    ensures Safe(env, w.(st := Process(env, w.st, inner, k).st))
  {
    hide Inv, EnvOk, Process, Waits, Patient, ContentHeld, ItemsKept;
    var st := Process(env, w.st, inner, k).st;
    ProcessKeeps(env, w.st, inner, k);
    ProcessPatient(env, w.st, inner, k);
    forall it | it in w.waiting ensures Waits(st, it) { PatientWaits(w.st, st, it); }
    StateStep(env, w, st);
  }

  lemma SafeInv(env: Env, w: World)
    requires Safe(env, w)
    ensures Inv(env, w.st) && (forall it :: it in w.waiting ==> Waits(w.st, it)) && forall p :: p in w.taken ==> TakenUp(env, p.1, p.0, w.st.rows)
  {
    hide Inv, ContentHeld, ItemsKept, UsedUp, TakenUp, Waits;
  }

  // No item is forgotten.
  lemma NoneForgotten(env: Env, w: World, a: Action)
    ensures Known(w) <= Known(Happen(env, w, Elsewhere(a)))
  {
    hide Removed, Unread, Do, LeftOver;
    var w' := Happen(env, w, Elsewhere(a));
    forall it | it in Known(w) ensures it in Known(w') {
      if it in w.waiting && Removed(env, w.st, a, it) && !Unread(env, w.st, a, it) && (a.TakeRequest? || a.TakeInvite?) { assert (it, w.st) in w'.taken; }
      else if it !in w.waiting && it !in w.declined && it !in w.unread { var p :| p in w.taken && p.0 == it; assert p in w'.taken; }
      else { UnreadIsRemoved(env, w.st, a, it); }
    }
  }

  lemma UnreadIsRemoved(env: Env, st: State, a: Action, it: Item)
    ensures Unread(env, st, a, it) ==> Removed(env, st, a, it)
  {
    hide Removed;
  }

  lemma LeftOverWaits(env: Env, st: State, a: Action, it: Item)
    requires it in LeftOver(env, st, a)
    ensures Waits(Do(env, st, a), it)
  {
    hide AcceptRequest, HandleAll, DelaysAt, Merged, FirstOf, Waits;
    RequestWaitsExactly(env, st, a.sender, a.n, it);
    assert RequestDelays(env, st, a.sender, a.n, it);
  }

  lemma DecisionStep(env: Env, w: World, a: Action)
    requires EnvOk(env) && Safe(env, w)
    ensures Safe(env, Happen(env, w, Elsewhere(a)))
  {
    hide Inv, EnvOk, Do, Waits, Safe, Removed, Unread, TakenUp, LeftOver, Known;
    var st, w' := Do(env, w.st, a), Happen(env, w, Elsewhere(a));
    SafeInv(env, w);
    StepKeeps(env, w.st, a);
    NoneForgotten(env, w, a);
    forall it | it in w'.waiting ensures Waits(st, it) {
      if it in LeftOver(env, w.st, a) { LeftOverWaits(env, w.st, a, it); } else { ItemStays(env, w.st, a, it); }
    }
    forall p | p in w'.taken ensures TakenUp(env, p.1, p.0, st.rows) {
      if p in w.taken { TakenUpLater(env, p.1, p.0, w.st.rows, st.rows); } else { TakingUp(env, w.st, a, p.0); }
    }
    MoveOn(env, w, w');
  }

  lemma ContentTaken(env: Env, st: State, e: Envelope)
    requires e.inner.Some? && !Process(env, st, e.inner.value, Count(env, e)).threw
    ensures ContentHeld(env, Process(env, st, e.inner.value, Count(env, e)).st.rows, e, Handled(st, true))
  {
    hide Process, GateFor, HasMessage, RowsAfter, SameGate;
    var rs, gate := Parsed(env, e.inner.value.records), GateFor(env, st, e.inner.value);
    assert Upto(rs, |rs|) == rs;
    ProcessRows(env, st, e.inner.value, |rs|);
    forall i | Wanted(gate, rs, i) ensures HasMessage(Process(env, st, e.inner.value, |rs|).st.rows, rs[i].conv, rs[i].id) {
      WantedIsHeld(gate, st.rows, rs, i);
    }
  }

  lemma TakeSafe(env: Env, w: World, e: Envelope)
    requires EnvOk(env) && Safe(env, w) && e in w.queue
    ensures Safe(env, DoTake(env, w, e))
  {
    hide Inv, Process, EnvOk, Safe;
    if Opens(w.vault, e) {
      var inner := e.inner.value;
      var o := Process(env, w.st, inner, Count(env, e));
      ProcessStep(env, w, inner, Count(env, e));
      if !o.threw {
        ContentTaken(env, w.st, e);
        forall it | it in Items(env, w.st, inner) ensures Waits(o.st, it) { ItemsWait(env, w.st, inner, it); }
        HandledSafe(env, w.(st := o.st), e, Handled(w.st, true));
        if e.prekey.Some? && !w.vault[e.prekey.value] { SpentSafe(env, TakenTo(env, w.(st := o.st), e, Handled(w.st, true)), e); }
      }
    } else {
      Unopened(env, w.st.rows, e, w.st);
      HandledSafe(env, w, e, Handled(w.st, false));
      assert w.waiting + {} == w.waiting;
    }
  }

  // The envelope has been handled to the end, from the state h says.
  function TakenTo(env: Env, w: World, e: Envelope, h: Handled): World {
    w.(toAck := w.toAck + {e}, handled := Noted(w.handled, e, h),
       waiting := w.waiting + if h.readable && e.inner.Some? then Items(env, h.st, e.inner.value) else {})
  }

  lemma HandledSafe(env: Env, w: World, e: Envelope, h: Handled)
    requires Safe(env, w) && e in w.queue && ContentHeld(env, w.st.rows, e, h) && (h.readable ==> e.inner.Some?)
    requires h.readable ==> forall it :: it in Items(env, h.st, e.inner.value) ==> Waits(w.st, it)
    ensures var w' := TakenTo(env, w, e, h);
            Safe(env, w') && e in w'.seen && e in w'.handled && (h.readable ==> w'.handled[e].readable)
  {
    hide Inv, ContentHeld, Items, Waits;
    var w' := TakenTo(env, w, e, h);
    forall f | f in w'.handled ensures ContentHeld(env, w.st.rows, f, w'.handled[f]) && ItemsKept(env, Known(w'), f, w'.handled[f]) {
      if f in w.handled { assert ItemsKept(env, Known(w), f, w.handled[f]); }
    }
    forall p | p in w.spent ensures UsedUp(w', p) {
      var f :| f in w.seen && f.prekey == Some(p) && f in w.handled && w.handled[f].readable;
      assert f in w'.handled && w'.handled[f].readable;
    }
  }

  lemma SpentSafe(env: Env, w: World, e: Envelope)
    requires Safe(env, w) && e in w.seen && e.prekey.Some? && e.prekey.value in w.vault && !w.vault[e.prekey.value]
    requires e in w.handled && w.handled[e].readable
    ensures Safe(env, w.(vault := w.vault - {e.prekey.value}, spent := w.spent + {e.prekey.value}))
  {
    hide Inv, ContentHeld, ItemsKept, Waits;
    var w' := w.(vault := w.vault - {e.prekey.value}, spent := w.spent + {e.prekey.value});
    forall p | p in w'.spent ensures UsedUp(w', p) { if p in w.spent { assert UsedUp(w, p); } else { assert e.prekey == Some(p); } }
  }

  lemma Unopened(env: Env, rows: seq<Row>, e: Envelope, st: State)
    ensures ContentHeld(env, rows, e, Handled(st, false))
  {
  }

  lemma HappenSafe(env: Env, w: World, ev: Event)
    requires EnvOk(env) && Safe(env, w)
    ensures Safe(env, Happen(env, w, ev))
  {
    match ev
    case CrashIn(e, k) => hide *; CrashSafe(env, w, e, k);
    case Take(e) =>
      hide Safe, EnvOk, DoTake;
      if e in w.queue { TakeSafe(env, w, e); }
    case Elsewhere(a) => hide *; DecisionStep(env, w, a);
    case _ => PrekeySafe(env, w, ev);
  }

  lemma CrashSafe(env: Env, w: World, e: Envelope, k: nat)
    requires EnvOk(env) && Safe(env, w)
    ensures Safe(env, Happen(env, w, CrashIn(e, k)))
  {
    hide EnvOk, Inv, Process, Waits, ContentHeld, ItemsKept;
    if e in w.queue && Opens(w.vault, e) {
      ProcessStep(env, w, e.inner.value, k);
      var w1 := w.(st := Process(env, w.st, e.inner.value, k).st);
      forall p | p in w.spent ensures UsedUp(w1.(toAck := {}), p) { assert UsedUp(w1, p); }
    }
  }

  lemma PrekeySafe(env: Env, w: World, ev: Event)
    requires Safe(env, w) && !ev.CrashIn? && !ev.Take? && !ev.Elsewhere?
    ensures Safe(env, Happen(env, w, ev))
  {
    hide Inv, ContentHeld, ItemsKept, Waits;
    var w' := Happen(env, w, ev);
    forall p | p in w.spent ensures UsedUp(w', p) { assert UsedUp(w, p); }
  }

  lemma {:induction false} RunSafe(env: Env, w: World, events: seq<Event>)
    requires EnvOk(env) && Safe(env, w)
    ensures Safe(env, RunOf(env, w, events))
    decreases |events|
  {
    if events != [] {
      hide EnvOk, Safe, Happen;
      HappenSafe(env, w, events[0]);
      RunSafe(env, Happen(env, w, events[0]), events[1..]);
    }
  }

  // Over every schedule of deliveries, crashes and redeliveries: no message is stored twice, and an envelope that was
  // acknowledged was first handled to the end. Every message it then held for this user is stored; every request,
  // invitation and record for an invitation that there was room for still waits, or the user declined it, or they took it
  // up and the messages it promised are stored, or it is one of those taken away unread (NothingUnread says exactly when
  // there are any). Only an envelope that could not be opened at all is acknowledged without that. A one-time prekey is
  // erased only after an envelope sealed to it was handled; if that prekey was handed out once, so was every envelope
  // sealed to it.
  lemma NothingLost(env: Env, events: seq<Event>, e: Envelope)
    requires EnvOk(env)
    ensures var w := RunOf(env, Begin(), events);
            && Unique(w.st.rows)
            && (e in w.acked ==> e in w.handled)
            && (e in w.seen && e.prekey.Some? && e.prekey.value in w.spent && (forall f :: f in w.seen && f.prekey == e.prekey ==> f == e) ==>
                  e in w.handled && w.handled[e].readable)
            && (e in w.handled ==> ContentHeld(env, w.st.rows, e, w.handled[e]))
            && (e in w.handled && w.handled[e].readable ==>
                  && e.inner.Some?
                  && forall it :: it in Items(env, w.handled[e].st, e.inner.value) ==>
                       Waits(w.st, it) || it in w.declined || it in w.unread || exists st :: (it, st) in w.taken && TakenUp(env, st, it, w.st.rows))
  {
    hide EnvOk, RunOf, ContentHeld, Items, Waits;
    assert Safe(env, Begin());
    RunSafe(env, Begin(), events);
    var w := RunOf(env, Begin(), events);
    if e in w.handled { assert ItemsKept(env, Known(w), e, w.handled[e]); }
    if e.prekey.Some? && e.prekey.value in w.spent { assert UsedUp(w, e.prekey.value); }
  }

  // ---- What is taken away unread ----

  // The requests are listed while one of a contact waits, or a sender's requests, or an invitation, are taken up while
  // something waits there that came after they were read.
  predicate TakesUnread(env: Env, w: World, ev: Event) {
    ev.Elsewhere? && exists it :: it in w.waiting && Unread(env, w.st, ev.a, it)
  }

  predicate EverUnread(env: Env, w: World, events: seq<Event>)
    decreases |events|
  {
    && events != []
    && (TakesUnread(env, w, events[0]) || EverUnread(env, Happen(env, w, events[0]), events[1..]))
  }

  lemma UnreadStep(env: Env, w: World, ev: Event)
    ensures w.unread <= Happen(env, w, ev).unread
    ensures if TakesUnread(env, w, ev) then Happen(env, w, ev).unread != {} else Happen(env, w, ev).unread == w.unread
  {
    hide Process, Items, Do, Unread, Removed, Opens, Count;
    if TakesUnread(env, w, ev) {
      var it :| it in w.waiting && Unread(env, w.st, ev.a, it);
      assert it in Happen(env, w, ev).unread;
    } else {
      assert Happen(env, w, ev).unread == w.unread;
    }
  }

  // Exactly when a run takes away something unread.
  lemma {:induction false} NothingUnread(env: Env, w: World, events: seq<Event>)
    ensures RunOf(env, w, events).unread == {} <==> w.unread == {} && !EverUnread(env, w, events)
    decreases |events|
  {
    hide Happen, TakesUnread;
    if events != [] {
      UnreadStep(env, w, events[0]);
      NothingUnread(env, Happen(env, w, events[0]), events[1..]);
    }
  }

  lemma Onwards(env: Env, w: World, events: seq<Event>)
    requires events != []
    ensures RunOf(env, w, events) == RunOf(env, Happen(env, w, events[0]), events[1..])
    ensures |events| == 1 ==> RunOf(env, w, events) == Happen(env, w, events[0])
  {
    hide Happen;
  }

  // A stranger's one record becomes a request.
  lemma StrangerWaits(env: Env, raw: Bytes, inner: Inner)
    requires env.parse(raw).Some? && env.parse(raw).value.sender != env.me && env.signedBy(env.parse(raw).value.raw, env.parse(raw).value.sender)
    requires inner == Inner(Some(env.parse(raw).value.sender), [raw], [])
    ensures var r := env.parse(raw).value;
            var q := Request(r.sender, [r], []);
            && Parsed(env, inner.records) == [r] && Items(env, Nothing(), inner) == {InRequest(q)}
            && Process(env, Nothing(), inner, 1) == Outcome(Nothing().(requests := [q]), false)
  {
    var r := env.parse(raw).value;
    assert Parsed(env, [raw]) == [r] by { assert [raw][1..] == []; }
    assert Verified(env, r.sender, [r]) == [r] by { assert [r][1..] == []; }
  }

  // The code can lose what a stranger sent. Their envelope is acknowledged once their message waits as a request; then they
  // are added as a contact some other way, and the next listing deletes the request as stale.
  lemma ContactAddedMeanwhile(env: Env, e: Envelope, raw: Bytes)
    requires env.parse(raw).Some? && env.parse(raw).value.sender != env.me && env.signedBy(env.parse(raw).value.raw, env.parse(raw).value.sender)
    requires e.prekey.None? && e.inner == Some(Inner(Some(env.parse(raw).value.sender), [raw], []))
    ensures var r := env.parse(raw).value;
            var w := RunOf(env, Begin(), [Arrive(e), Take(e), Acknowledge, Elsewhere(AddContact(r.sender)), Elsewhere(ListRequests)]);
            && e in w.acked && w.st.rows == [] && w.st.requests == []
            && InRequest(Request(r.sender, [r], [])) in w.unread && w.declined == {} && w.taken == {}
  {
    hide Happen, RunOf;
    var r := env.parse(raw).value;
    var es := [Arrive(e), Take(e), Acknowledge, Elsewhere(AddContact(r.sender)), Elsewhere(ListRequests)];
    var w2 := RequestTaken(env, e, raw);
    Onwards(env, Begin(), es);
    Onwards(env, Happen(env, Begin(), Arrive(e)), es[1..]);
    var w3 := Happen(env, w2, Acknowledge);
    var w4 := Happen(env, w3, Elsewhere(AddContact(r.sender)));
    Onwards(env, w2, es[1..][1..]);
    Onwards(env, w3, es[1..][1..][1..]);
    Onwards(env, w4, es[1..][1..][1..][1..]);
    ContactListed(env, w2, e, Request(r.sender, [r], []));
  }

  lemma RequestTaken(env: Env, e: Envelope, raw: Bytes) returns (w: World)
    requires env.parse(raw).Some? && env.parse(raw).value.sender != env.me && env.signedBy(env.parse(raw).value.raw, env.parse(raw).value.sender)
    requires e.prekey.None? && e.inner == Some(Inner(Some(env.parse(raw).value.sender), [raw], []))
    ensures w == Happen(env, Happen(env, Begin(), Arrive(e)), Take(e))
    ensures var r := env.parse(raw).value;
            var q := Request(r.sender, [r], []);
            e in w.toAck && w.st == Nothing().(requests := [q]) && w.waiting == {InRequest(q)} && w.declined == {} && w.taken == {} && w.unread == {}
  {
    hide Process, Items, Parsed;
    StrangerWaits(env, raw, e.inner.value);
    w := Happen(env, Happen(env, Begin(), Arrive(e)), Take(e));
  }

  lemma ContactListed(env: Env, w: World, e: Envelope, q: Request)
    requires e in w.toAck && w.st == Nothing().(requests := [q]) && w.waiting == {InRequest(q)} && w.declined == {} && w.taken == {} && w.unread == {}
    ensures var w' := Happen(env, Happen(env, Happen(env, w, Acknowledge), Elsewhere(AddContact(q.sender))), Elsewhere(ListRequests));
            e in w'.acked && w'.st.rows == [] && w'.st.requests == [] && InRequest(q) in w'.unread && w'.declined == {} && w'.taken == {}
  {
    var it := InRequest(q);
    var w1 := Happen(env, w, Acknowledge);
    var w2 := Happen(env, w1, Elsewhere(AddContact(q.sender)));
    assert !Removed(env, w1.st, AddContact(q.sender), it) && w2.waiting == {it} && w2.declined == {} && w2.taken == {};
    assert Unread(env, w2.st, ListRequests, it);
    assert w2.st.requests == [q] && q.sender in w2.st.contacts && Listed([q], w2.st.contacts) == Listed([], w2.st.contacts) by { assert [q][1..] == []; }
    var w3 := Happen(env, w2, Elsewhere(ListRequests));
    assert it in w3.unread && w3.declined == {} && w3.taken == {};
  }

  // ---- One envelope for each one-time prekey ----

  predicate OpenedBy(w: World, e: Envelope, p: Bytes) {
    e in w.handled && w.handled[e].readable && e.prekey == Some(p)
  }

  ghost predicate Once(w: World) {
    && w.queue <= w.seen && w.handled.Keys <= w.seen && w.vault.Keys !! w.spent && w.spent <= w.made
    && (forall p :: p in w.vault ==> (w.vault[p] <==> p !in w.made))
    && (forall e, p :: p in w.made && OpenedBy(w, e, p) ==> p in w.spent)
    && (forall e, f, p :: p in w.made && OpenedBy(w, e, p) && OpenedBy(w, f, p) ==> e == f)
    && (forall p :: p in w.spent ==> exists e :: OpenedBy(w, e, p))
  }

  lemma SameOpenings(w: World, w': World)
    requires w'.handled == w.handled
    ensures forall e, p :: OpenedBy(w', e, p) == OpenedBy(w, e, p)
  {
  }

  lemma TakeOnce(env: Env, w: World, e: Envelope)
    requires Once(w) && e in w.queue
    ensures Once(DoTake(env, w, e))
  {
    hide Process, Items;
    var w' := DoTake(env, w, e);
    forall f, p | OpenedBy(w, f, p) ensures OpenedBy(w', f, p) {}
    forall f, p | OpenedBy(w', f, p) && !OpenedBy(w, f, p) ensures f == e && p in w.vault && (p in w.made ==> p !in w.spent && p in w'.spent) {}
    forall p | p in w'.spent ensures exists f :: OpenedBy(w', f, p) {
      if p in w.spent { var f :| OpenedBy(w, f, p); assert OpenedBy(w', f, p); } else { assert OpenedBy(w', e, p); }
    }
  }

  lemma HappenOnce(env: Env, w: World, ev: Event)
    requires Once(w)
    ensures Once(Happen(env, w, ev))
  {
    hide Process, DoTake, Do, Removed, Unread, OpenedBy;
    if ev.Take? {
      if ev.e in w.queue { TakeOnce(env, w, ev.e); }
    } else {
      SameOpenings(w, Happen(env, w, ev));
      if ev.MakePrekey? && !(exists e :: e in w.seen && e.prekey == Some(ev.id)) { NewPrekey(w, ev.id); }
    }
  }

  lemma NewPrekey(w: World, p: Bytes)
    requires Once(w) && !exists e :: e in w.seen && e.prekey == Some(p)
    ensures forall e :: !OpenedBy(w, e, p)
  {
  }

  lemma {:induction false} RunOnce(env: Env, w: World, events: seq<Event>)
    requires Once(w)
    ensures Once(RunOf(env, w, events))
    decreases |events|
  {
    if events != [] {
      hide Happen, Once;
      HappenOnce(env, w, events[0]);
      RunOnce(env, Happen(env, w, events[0]), events[1..]);
    }
  }

  // Over every schedule, a one-time prekey is erased exactly when it has opened an envelope, and it never opens another.
  lemma OpensOnce(env: Env, events: seq<Event>, p: Bytes)
    ensures var w := RunOf(env, Begin(), events);
            p in w.made ==>
              && (p in w.spent <==> exists e :: OpenedBy(w, e, p))
              && forall e, f :: OpenedBy(w, e, p) && OpenedBy(w, f, p) ==> e == f
  {
    assert Once(Begin());
    hide RunOf, OpenedBy;
    RunOnce(env, Begin(), events);
  }

  // A relay that hands out a one-time prekey twice makes one of two envelopes unreadable: the first to be handled uses the
  // prekey up, and the other is acknowledged without having been opened.
  lemma SharedPrekey(env: Env, p: Bytes, e: Envelope, f: Envelope)
    requires e != f && e.prekey == f.prekey == Some(p) && e.inner.Some? && f.inner.Some?
    requires !Process(env, Nothing(), e.inner.value, Count(env, e)).threw
    ensures var w := RunOf(env, Begin(), [MakePrekey(p, false), Arrive(e), Arrive(f), Take(e), Take(f), Acknowledge]);
            && f in w.acked && f in w.handled && !w.handled[f].readable && p in w.spent
            && w.st == Process(env, Nothing(), e.inner.value, Count(env, e)).st
  {
    hide Happen, RunOf, Process;
    var es := [MakePrekey(p, false), Arrive(e), Arrive(f), Take(e), Take(f), Acknowledge];
    var w1 := Happen(env, Begin(), MakePrekey(p, false));
    var w2 := Happen(env, w1, Arrive(e));
    var w3 := Happen(env, w2, Arrive(f));
    BothArrived(env, p, e, f);
    var w4 := Happen(env, w3, Take(e));
    FirstOpened(env, w3, p, e);
    var w5 := Happen(env, w4, Take(f));
    SecondClosed(env, w4, p, f);
    Onwards(env, Begin(), es);
    Onwards(env, w1, es[1..]);
    Onwards(env, w2, es[1..][1..]);
    Onwards(env, w3, es[1..][1..][1..]);
    Onwards(env, w4, es[1..][1..][1..][1..]);
    Onwards(env, w5, es[1..][1..][1..][1..][1..]);
  }

  lemma BothArrived(env: Env, p: Bytes, e: Envelope, f: Envelope)
    requires e != f
    ensures var w := Happen(env, Happen(env, Happen(env, Begin(), MakePrekey(p, false)), Arrive(e)), Arrive(f));
            w.st == Nothing() && w.vault == map[p := false] && w.queue == {e, f} && w.handled == map[] && w.toAck == {}
  {
    var w1 := Happen(env, Begin(), MakePrekey(p, false));
    var w2 := Happen(env, w1, Arrive(e));
    assert w1.vault == map[p := false] && w1.seen == {} && w2.seen == {e} && w2.queue == {e};
  }

  lemma FirstOpened(env: Env, w: World, p: Bytes, e: Envelope)
    requires w.st == Nothing() && w.vault == map[p := false] && e in w.queue && w.handled == map[]
    requires e.prekey == Some(p) && e.inner.Some? && !Process(env, Nothing(), e.inner.value, Count(env, e)).threw
    ensures var w' := Happen(env, w, Take(e));
            && w'.st == Process(env, Nothing(), e.inner.value, Count(env, e)).st && w'.vault == map[] && w'.queue == w.queue
            && w'.handled.Keys == {e} && p in w'.spent
  {
    hide Process, Items;
  }

  lemma SecondClosed(env: Env, w: World, p: Bytes, f: Envelope)
    requires w.vault == map[] && f in w.queue && f !in w.handled && f.prekey == Some(p)
    ensures var w' := Happen(env, w, Take(f));
            var w'' := Happen(env, w', Acknowledge);
            && f in w''.acked && f in w''.handled && !w''.handled[f].readable && w''.st == w.st && w''.spent == w.spent
  {
    hide Process, Items;
  }
}
