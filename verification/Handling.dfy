/**
 What handling records does: which become messages, which have to wait for the user, and what becomes of those that waited
 (client/messaging_engine.cpp: handle_record and its callers).
 */
module Handling {
  import opened Wire
  import opened Intake

  // ---- What handling does to the messages ----

  // What is decided about a record by things that handling an envelope never changes.
  datatype Gate = Gate(accepts: Rec -> bool, throws: Rec -> bool)

  predicate Direct(env: Env, sender: Bytes, r: Rec) {
    r.conv == env.conversationId(env.me, sender)
  }

  // The record would throw: it is for the one-to-one chat, whose ID something else has taken.
  predicate Throws(env: Env, convs: map<Bytes, Conv>, route: Route, sender: Bytes, r: Rec) {
    && r.sender == sender && env.signedBy(r.raw, sender) && IsMessage(r)
    && route == FromContact && Direct(env, sender, r) && r.recipients == env.recipientsHash([env.me, sender])
    && r.conv in convs && convs[r.conv] != Conv(false, [], [sender])
  }

  // The record is a message for this user: signed by the sender, for a chat both are in, bound to exactly its members.
  predicate Admits(env: Env, convs: map<Bytes, Conv>, route: Route, sender: Bytes, r: Rec) {
    && r.sender == sender && env.signedBy(r.raw, sender) && IsMessage(r)
    && if route == FromContact && Direct(env, sender, r) then r.recipients == env.recipientsHash([env.me, sender])
       else (route == FromContact || route == FromMember) && r.sender != env.me && r.conv in convs && convs[r.conv].group
            && sender in convs[r.conv].members && Bound(env, convs[r.conv], r)
  }

  function GateOf(env: Env, convs: map<Bytes, Conv>, route: Route, sender: Bytes): Gate {
    Gate((r: Rec) => Admits(env, convs, route, sender, r), (r: Rec) => Throws(env, convs, route, sender, r))
  }

  function AddRow(rows: seq<Row>, r: Rec): seq<Row> {
    if HasMessage(rows, r.conv, r.id) then rows else rows + [Row(r.conv, r.id, false, r)]
  }

  predicate Stops(gate: Gate, rs: seq<Rec>) {
    exists i :: 0 <= i < |rs| && gate.throws(rs[i])
  }

  // The messages after a list of records: each accepted one once, up to the first that throws.
  function RowsAfter(gate: Gate, rows: seq<Row>, rs: seq<Rec>): seq<Row>
    decreases |rs|
  {
    if rs == [] then rows
    else
      var before := RowsAfter(gate, rows, rs[..|rs| - 1]);
      if Stops(gate, rs) || !gate.accepts(rs[|rs| - 1]) then before else AddRow(before, rs[|rs| - 1])
  }

  // Two states that handling this sender's records cannot tell apart.
  predicate SameGate(env: Env, convs: map<Bytes, Conv>, convs': map<Bytes, Conv>, sender: Bytes) {
    && (forall c :: c in convs ==> c in convs' && convs'[c] == convs[c])
    && (forall c :: c in convs' && c !in convs ==> c == env.conversationId(env.me, sender) && convs'[c] == Conv(false, [], [sender]))
  }

  lemma GateKept(env: Env, convs: map<Bytes, Conv>, convs': map<Bytes, Conv>, route: Route, sender: Bytes, r: Rec)
    requires SameGate(env, convs, convs', sender)
    ensures Admits(env, convs', route, sender, r) == Admits(env, convs, route, sender, r)
    ensures Throws(env, convs', route, sender, r) == Throws(env, convs, route, sender, r)
  {
  }

  // One record: it throws exactly when Throws says, it is stored exactly when it is accepted and not yet held, and
  // nothing is changed that decides about the next.
  lemma OneRecord(env: Env, st: State, route: Route, sender: Bytes, introduced: seq<Bytes>, r: Rec)
    requires route == FromContact || route == FromMember
    ensures var o := HandleOne(env, st, route, sender, introduced, r);
            && (o.threw <==> Throws(env, st.convs, route, sender, r))
            && o.st.rows == (if !o.threw && Admits(env, st.convs, route, sender, r) then AddRow(st.rows, r) else st.rows)
            && SameGate(env, st.convs, o.st.convs, sender) && o.st.contacts == st.contacts
  {
    hide HasMessage, SameMembers, GroupOf;
  }

  lemma {:induction false} AllRecords(env: Env, st: State, route: Route, sender: Bytes, introduced: seq<Bytes>, rs: seq<Rec>)
    requires route == FromContact || route == FromMember
    ensures var o, gate := HandleAll(env, st, route, sender, introduced, rs), GateOf(env, st.convs, route, sender);
            && (o.threw <==> Stops(gate, rs)) && o.st.rows == RowsAfter(gate, st.rows, rs)
            && SameGate(env, st.convs, o.st.convs, sender) && o.st.contacts == st.contacts
    decreases |rs|
  {
    if rs != [] {
      hide Admits, Throws, HandleOne, AddRow, SameGate, GateOf;
      var front, r, gate := rs[..|rs| - 1], rs[|rs| - 1], GateOf(env, st.convs, route, sender);
      GateIs(env, st.convs, route, sender, r);
      AllRecords(env, st, route, sender, introduced, front);
      var before := HandleAll(env, st, route, sender, introduced, front);
      OneRecord(env, before.st, route, sender, introduced, r);
      GateKept(env, st.convs, before.st.convs, route, sender, r);
      var after := HandleOne(env, before.st, route, sender, introduced, r);
      SameGateTwice(env, st.convs, before.st.convs, after.st.convs, sender);
      assert rs == front + [r];
      StopsMore(gate, front, r);
    } else {
      SameGateTwice(env, st.convs, st.convs, st.convs, sender);
    }
  }

  lemma GateIs(env: Env, convs: map<Bytes, Conv>, route: Route, sender: Bytes, r: Rec)
    ensures var gate := GateOf(env, convs, route, sender);
            gate.accepts(r) == Admits(env, convs, route, sender, r) && gate.throws(r) == Throws(env, convs, route, sender, r)
  {
    hide Admits, Throws;
  }

  lemma SameGateTwice(env: Env, a: map<Bytes, Conv>, b: map<Bytes, Conv>, c: map<Bytes, Conv>, sender: Bytes)
    ensures SameGate(env, a, a, sender)
    ensures SameGate(env, a, b, sender) && SameGate(env, b, c, sender) ==> SameGate(env, a, c, sender)
  {
  }

  lemma StopsMore(gate: Gate, front: seq<Rec>, r: Rec)
    ensures Stops(gate, front + [r]) <==> Stops(gate, front) || gate.throws(r)
  {
    var rs := front + [r];
    if Stops(gate, front) { var i :| 0 <= i < |front| && gate.throws(front[i]); assert rs[i] == front[i]; }
    if gate.throws(r) { assert rs[|front|] == r; }
  }

  // ---- The same records again ----

  lemma {:induction false} RowsGrow(gate: Gate, rows: seq<Row>, rs: seq<Rec>)
    ensures rows <= RowsAfter(gate, rows, rs)
    decreases |rs|
  {
    if rs != [] { RowsGrow(gate, rows, rs[..|rs| - 1]); }
  }

  lemma HeldLater(rows: seq<Row>, rows': seq<Row>, conv: Bytes, id: Bytes)
    requires rows <= rows' && HasMessage(rows, conv, id)
    ensures HasMessage(rows', conv, id)
  {
    var i :| 0 <= i < |rows| && rows[i].conv == conv && rows[i].id == id;
    assert rows'[i] == rows[i];
  }

  // Record i is reached and accepted.
  predicate Wanted(gate: Gate, rs: seq<Rec>, i: int) {
    0 <= i < |rs| && gate.accepts(rs[i]) && !Stops(gate, rs[..i + 1])
  }

  lemma {:induction false} WantedIsHeld(gate: Gate, rows: seq<Row>, rs: seq<Rec>, i: int)
    requires Wanted(gate, rs, i)
    ensures HasMessage(RowsAfter(gate, rows, rs), rs[i].conv, rs[i].id)
    decreases |rs|
  {
    var front := rs[..|rs| - 1];
    if i < |front| {
      assert front[..i + 1] == rs[..i + 1];
      WantedIsHeld(gate, rows, front, i);
      if !Stops(gate, rs) && gate.accepts(rs[|rs| - 1]) {
        HeldLater(RowsAfter(gate, rows, front), RowsAfter(gate, rows, rs), rs[i].conv, rs[i].id);
      }
    } else {
      assert rs[..i + 1] == rs;
      var before, after := RowsAfter(gate, rows, front), RowsAfter(gate, rows, rs);
      if !HasMessage(before, rs[i].conv, rs[i].id) { assert after[|before|] == Row(rs[i].conv, rs[i].id, false, rs[i]); }
    }
  }

  // Exactly when a list of records leaves the messages as they are: all those it would store are held already.
  lemma {:induction false} NothingNew(gate: Gate, rows: seq<Row>, rs: seq<Rec>)
    ensures RowsAfter(gate, rows, rs) == rows <==> forall i :: Wanted(gate, rs, i) ==> HasMessage(rows, rs[i].conv, rs[i].id)
    decreases |rs|
  {
    if RowsAfter(gate, rows, rs) == rows {
      forall i | Wanted(gate, rs, i) ensures HasMessage(rows, rs[i].conv, rs[i].id) { WantedIsHeld(gate, rows, rs, i); }
    } else {
      var front, r := rs[..|rs| - 1], rs[|rs| - 1];
      NothingNew(gate, rows, front);
      RowsGrow(gate, rows, front);
      if RowsAfter(gate, rows, front) != rows {
        var i :| Wanted(gate, front, i) && !HasMessage(rows, front[i].conv, front[i].id);
        assert front[..i + 1] == rs[..i + 1];
        assert Wanted(gate, rs, i) && !HasMessage(rows, rs[i].conv, rs[i].id);
      } else {
        assert rs[..|rs|] == rs;
        assert Wanted(gate, rs, |rs| - 1) && !HasMessage(rows, r.conv, r.id);
      }
    }
  }

  // Handling the first k records, stopping, and then handling them all is the same as handling them all.
  lemma {:induction false} AgainFromTheStart(gate: Gate, rows: seq<Row>, rs: seq<Rec>, k: nat)
    requires k <= |rs|
    ensures RowsAfter(gate, RowsAfter(gate, rows, rs[..k]), rs) == RowsAfter(gate, rows, rs)
    decreases |rs|
  {
    var held := RowsAfter(gate, rows, rs[..k]);
    if k == |rs| {
      assert rs[..k] == rs;
      forall i | Wanted(gate, rs, i) ensures HasMessage(held, rs[i].conv, rs[i].id) { WantedIsHeld(gate, rows, rs, i); }
      NothingNew(gate, held, rs);
    } else {
      assert rs[..|rs| - 1][..k] == rs[..k];
      AgainFromTheStart(gate, rows, rs[..|rs| - 1], k);
    }
  }

  // ---- One envelope ----

  function Sender(env: Env, inner: Inner): Bytes {
    var rs := Parsed(env, inner.records);
    if rs == [] then [] else rs[0].sender
  }

  function Upto(rs: seq<Rec>, k: nat): seq<Rec> {
    rs[..if k < |rs| then k else |rs|]
  }

  function GateFor(env: Env, st: State, inner: Inner): Gate {
    GateOf(env, st.convs, RouteOf(env, st, inner, Parsed(env, inner.records)), Sender(env, inner))
  }

  // What one envelope does to the messages, whatever its route.
  lemma ProcessRows(env: Env, st: State, inner: Inner, k: nat)
    ensures var o, rs, gate := Process(env, st, inner, k), Parsed(env, inner.records), GateFor(env, st, inner);
            && o.st.rows == RowsAfter(gate, st.rows, Upto(rs, k)) && (o.threw <==> Stops(gate, Upto(rs, k)))
            && SameGate(env, st.convs, o.st.convs, Sender(env, inner)) && o.st.contacts == st.contacts
  {
    hide HandleAll, RowsAfter, Stops;
    var rs := Parsed(env, inner.records);
    var route := RouteOf(env, st, inner, rs);
    if route == FromContact || route == FromMember {
      AllRecords(env, st, route, rs[0].sender, inner.introduced, Upto(rs, k));
    } else {
      Unwanted(GateFor(env, st, inner), st.rows, Upto(rs, k));
    }
  }

  lemma {:induction false} Unwanted(gate: Gate, rows: seq<Row>, rs: seq<Rec>)
    requires forall r :: !gate.accepts(r) && !gate.throws(r)
    ensures RowsAfter(gate, rows, rs) == rows && !Stops(gate, rs)
    decreases |rs|
  {
    if rs != [] { Unwanted(gate, rows, rs[..|rs| - 1]); }
  }

  // ---- What has to wait for the user ----

  // Something that waits for a decision: a stranger's request, or a record under an invitation to a group.
  datatype Item = InRequest(q: Request) | InInvite(conv: Bytes, rec: Rec)

  predicate Waits(st: State, it: Item) {
    match it
    case InRequest(q) => q in st.requests
    case InInvite(c, r) => c in st.invites && r in st.invites[c].records
  }

  // A valid invitation to a group this device is not in: its ID is free and there is room, or it is the one waiting.
  predicate Invites(env: Env, st: State, sender: Bytes, r: Rec) {
    && GroupOf(r).Some? && env.me in r.members.value && r.conv != env.conversationId(env.me, sender) && r.conv !in st.convs
    && if r.conv in st.invites then st.invites[r.conv].records != [] && st.invites[r.conv].records[0] == r
       else |st.invites| < MAX_PENDING_GROUP_INVITES
  }

  // A member's message or grant for a group whose invitation waits: bound to its members, and there is room, or it is held.
  predicate HeldBack(env: Env, st: State, sender: Bytes, r: Rec) {
    && r.sender != env.me && r.conv in st.invites && !(r.conv in st.convs && st.convs[r.conv].group)
    && (r.kind == Text || r.kind == TokenGrant || r.kind == ArchiveGrant)
    && var records := st.invites[r.conv].records;
       && records != [] && GroupOf(records[0]).Some? && sender in GroupOf(records[0]).value
       && r.recipients == env.recipientsHash(GroupOf(records[0]).value) && (r in records || |records| < 1 + MAX_HELD_RECORDS)
  }

  predicate Delays(env: Env, st: State, route: Route, sender: Bytes, r: Rec) {
    && r.sender == sender && env.signedBy(r.raw, sender)
    && if r.kind == Creation then route == FromContact && Invites(env, st, sender, r)
       else (route == FromMember || (route == FromContact && !Direct(env, sender, r))) && HeldBack(env, st, sender, r)
  }

  // The items an envelope brings: a request, unless nothing in it verifies or too many are waiting, or those of its records
  // that have to wait, each as things stand when it is reached.
  function Items(env: Env, st: State, inner: Inner): set<Item> {
    var rs := Parsed(env, inner.records);
    var route, sender := RouteOf(env, st, inner, rs), Sender(env, inner);
    if route == FromStranger then
      if Verified(env, sender, rs) == [] || |st.requests| >= MAX_PENDING_REQUESTS then {}
      else {InRequest(Request(sender, Verified(env, sender, rs), if HasCreation(Verified(env, sender, rs)) then inner.introduced else []))}
    else if route == Dropped then {}
    else set i | 0 <= i < |rs| && DelaysAt(env, st, route, sender, inner.introduced, rs, i) :: InInvite(rs[i].conv, rs[i])
  }

  predicate HasCreation(rs: seq<Rec>) {
    exists i :: 0 <= i < |rs| && rs[i].kind == Creation
  }

  predicate DelaysAt(env: Env, st: State, route: Route, sender: Bytes, introduced: seq<Bytes>, rs: seq<Rec>, i: int)
    requires 0 <= i < |rs|
  {
    Delays(env, HandleAll(env, st, route, sender, introduced, rs[..i]).st, route, sender, rs[i])
  }

  // Nothing that waits is taken away.
  predicate Patient(st: State, st': State) {
    && st.requests <= st'.requests
    && forall c :: c in st.invites ==> c in st'.invites && st.invites[c].records <= st'.invites[c].records
  }

  lemma PatientWaits(st: State, st': State, it: Item)
    requires Patient(st, st') && Waits(st, it)
    ensures Waits(st', it)
  {
  }

  lemma GroupPatient(env: Env, st: State, fp: Bytes, r: Rec)
    ensures Patient(st, HandleGroup(env, st, fp, r))
    ensures r.sender == fp && HeldBack(env, st, fp, r) ==> Waits(HandleGroup(env, st, fp, r), InInvite(r.conv, r))
  {
    hide Bound, IsMessage, HasMessage;
  }

  lemma RecordPatient(env: Env, st: State, fp: Bytes, r: Rec)
    ensures Patient(st, HandleRecord(env, st, fp, r).st)
  {
    hide IsMessage, HasMessage, HandleGroup;
    GroupPatient(env, st, fp, r);
  }

  lemma InvitePatient(env: Env, st: State, creator: Bytes, r: Rec, introduced: seq<Bytes>)
    ensures Patient(st, ReceiveInvite(env, st, creator, r, introduced))
    ensures r.sender == creator && Invites(env, st, creator, r) ==> Waits(ReceiveInvite(env, st, creator, r, introduced), InInvite(r.conv, r))
  {
    hide SameMembers;
  }

  lemma OneWaits(env: Env, st: State, route: Route, sender: Bytes, introduced: seq<Bytes>, r: Rec)
    ensures var st' := HandleOne(env, st, route, sender, introduced, r).st;
            Patient(st, st') && (Delays(env, st, route, sender, r) ==> Waits(st', InInvite(r.conv, r)))
  {
    hide ReceiveInvite, HandleGroup, Invites, HeldBack, Patient, Waits;
    SamePatient(st);
    InvitePatient(env, st, sender, r, introduced);
    RecordPatient(env, st, sender, r);
    GroupPatient(env, st, sender, r);
  }

  lemma SamePatient(st: State)
    ensures Patient(st, st)
  {
  }

  lemma PatientTwice(a: State, b: State, c: State)
    requires Patient(a, b) && Patient(b, c)
    ensures Patient(a, c)
  {
  }

  // From any record of an envelope to its end, nothing that waits goes, and a record that has to wait does.
  lemma {:induction false} AllWait(env: Env, st: State, route: Route, sender: Bytes, introduced: seq<Bytes>, rs: seq<Rec>, k: nat)
    requires k <= |rs|
    ensures var mid, end := HandleAll(env, st, route, sender, introduced, rs[..k]), HandleAll(env, st, route, sender, introduced, rs);
            && Patient(mid.st, end.st)
            && (k < |rs| && !end.threw && DelaysAt(env, st, route, sender, introduced, rs, k) ==> Waits(end.st, InInvite(rs[k].conv, rs[k])))
    decreases |rs|
  {
    hide HandleOne, Patient, Waits, Delays;
    if k == |rs| {
      assert rs[..k] == rs;
      SamePatient(HandleAll(env, st, route, sender, introduced, rs).st);
    } else {
      var front := rs[..|rs| - 1];
      var before := HandleAll(env, st, route, sender, introduced, front);
      assert front[..k] == rs[..k];
      AllWait(env, st, route, sender, introduced, front, k);
      SamePatient(before.st);
      OneWaits(env, before.st, route, sender, introduced, rs[|rs| - 1]);
      var end := HandleAll(env, st, route, sender, introduced, rs);
      PatientTwice(HandleAll(env, st, route, sender, introduced, rs[..k]).st, before.st, end.st);
      if k < |front| && Waits(before.st, InInvite(rs[k].conv, rs[k])) { PatientWaits(before.st, end.st, InInvite(rs[k].conv, rs[k])); }
    }
  }

  lemma ProcessPatient(env: Env, st: State, inner: Inner, k: nat)
    ensures Patient(st, Process(env, st, inner, k).st)
  {
    hide HandleAll, Verified, ForAGroup;
    var rs := Parsed(env, inner.records);
    var route := RouteOf(env, st, inner, rs);
    if route == FromContact || route == FromMember {
      AllWait(env, st, route, rs[0].sender, inner.introduced, Upto(rs, k), 0);
      assert Upto(rs, k)[..0] == [];
      NoneHandled(env, st, route, rs[0].sender, inner.introduced);
    }
  }

  lemma NoneHandled(env: Env, st: State, route: Route, sender: Bytes, introduced: seq<Bytes>)
    ensures HandleAll(env, st, route, sender, introduced, []) == Outcome(st, false)
  {
  }

  // Handled to the end, every item of the envelope waits.
  lemma ItemsWait(env: Env, st: State, inner: Inner, it: Item)
    requires !Process(env, st, inner, |Parsed(env, inner.records)|).threw && it in Items(env, st, inner)
    ensures Waits(Process(env, st, inner, |Parsed(env, inner.records)|).st, it)
  {
    hide HandleAll, Verified, Delays, ForAGroup;
    var rs := Parsed(env, inner.records);
    var route, sender := RouteOf(env, st, inner, rs), Sender(env, inner);
    if route == FromContact || route == FromMember {
      assert rs[..|rs|] == rs;
      var i :| 0 <= i < |rs| && DelaysAt(env, st, route, sender, inner.introduced, rs, i) && it == InInvite(rs[i].conv, rs[i]);
      AllWait(env, st, route, sender, inner.introduced, rs, i);
    }
  }

  // The step takes the item away: the sender's requests are taken up or dropped, or are found stale because the sender is a
  // contact; or the invitation is taken up or dropped.
  predicate Removed(env: Env, st: State, a: Action, it: Item) {
    match it
    case InRequest(q) =>
      || (a.TakeRequest? && a.sender == q.sender && AcceptsRequest(env, st, q.sender, a.n))
      || (a.DropRequest? && a.sender == q.sender)
      || (a.ListRequests? && q.sender in st.contacts)
    case InInvite(c, _) => (a.TakeInvite? && a.conv == c && AcceptsInvite(env, st, c)) || (a.DropInvite? && a.conv == c)
  }

  // It was taken away without the user having decided about it: nobody looked at it.
  predicate Unread(env: Env, st: State, a: Action, it: Item) {
    && Removed(env, st, a, it)
    && match it
       case InRequest(q) => a.ListRequests? || (a.TakeRequest? && q !in FirstOf(st.requests, q.sender, a.n))
       case InInvite(c, r) => a.TakeInvite? && c in st.invites && r !in ReadUpTo(st.invites[c].records, a.n)
  }

  lemma {:induction false} WithoutExactly(requests: seq<Request>, sender: Bytes, q: Request)
    requires q in requests
    ensures q in Without(requests, sender) <==> q.sender != sender
    decreases |requests|
  {
    if q in requests[1..] { WithoutExactly(requests[1..], sender, q); }
    if q !in requests[1..] { NotAdded(requests[1..], sender, q); }
  }

  lemma {:induction false} NotAdded(requests: seq<Request>, sender: Bytes, q: Request)
    requires q !in requests
    ensures q !in Without(requests, sender)
    decreases |requests|
  {
    if requests != [] { NotAdded(requests[1..], sender, q); }
  }

  lemma {:induction false} ListedExactly(requests: seq<Request>, contacts: set<Bytes>, q: Request)
    ensures q in Listed(requests, contacts) <==> q in requests && q.sender !in contacts
    decreases |requests|
  {
    if requests != [] { ListedExactly(requests[1..], contacts, q); }
  }

  lemma {:induction false} HeldPatient(env: Env, st: State, rs: seq<Rec>)
    ensures Patient(st, HandleHeld(env, st, rs))
    decreases |rs|
  {
    hide HandleGroup, Patient;
    SamePatient(st);
    if rs != [] {
      var front, r := HandleHeld(env, st, rs[..|rs| - 1]), rs[|rs| - 1];
      HeldPatient(env, st, rs[..|rs| - 1]);
      SamePatient(front);
      GroupPatient(env, front, r.sender, r);
      PatientTwice(st, front, HandleHeld(env, st, rs));
    }
  }

  lemma AcceptInvitePatient(env: Env, st: State, id: Bytes, n: nat, it: Item)
    requires Waits(st, it)
    ensures Waits(AcceptInvite(env, st, id, n), it) <==> !(it.InInvite? && it.conv == id && AcceptsInvite(env, st, id))
  {
    hide HandleHeld, AcceptsInvite, Patient, HasMessage;
    if AcceptsInvite(env, st, id) {
      var first, records := FirstRecord(env, st, id), ReadUpTo(st.invites[id].records, n);
      var st1 := CreateGroup(st, id, st.invites[id].creator, Others(env, first.members.value));
      var st2 := AddMessage(st1, Row(id, first.id, false, first));
      HeldPatient(env, st2, records[1..]);
      PatientWaits(st2, HandleHeld(env, st2, records[1..]), it);
    }
  }

  function FirstRecord(env: Env, st: State, id: Bytes): (r: Rec)
    requires AcceptsInvite(env, st, id)
    ensures id in st.invites && st.invites[id].records != [] && r == st.invites[id].records[0] && r.members.Some?
  {
    st.invites[id].records[0]
  }

  lemma AcceptRequestPatient(env: Env, st: State, sender: Bytes, n: nat, it: Item)
    requires Waits(st, it)
    ensures Waits(AcceptRequest(env, st, sender, n).st, it) <==> !(it.InRequest? && it.q.sender == sender && AcceptsRequest(env, st, sender, n))
  {
    hide HandleAll, Patient, FirstOf, Merged;
    var q, st1 := Merged(FirstOf(st.requests, sender, n), sender), st.(contacts := st.contacts + {sender});
    var o := HandleAll(env, st1, FromContact, sender, q.introduced, q.records);
    AllWait(env, st1, FromContact, sender, q.introduced, q.records, 0);
    assert q.records[..0] == [];
    NoneHandled(env, st1, FromContact, sender, q.introduced);
    PatientWaits(st1, o.st, it);
    if it.InRequest? { WithoutExactly(o.st.requests, sender, it.q); }
  }

  lemma ArchivedPatient(env: Env, st: State, conv: Bytes, r: Rec)
    requires conv in st.convs
    ensures Patient(st, TakeArchived(env, st, conv, r).st) && Patient(st, Restore(env, st, conv, r))
  {
    hide HandleRecord, HandleGroup, IsMessage, Bound, HasMessage;
    RecordPatient(env, st, r.sender, r);
    GroupPatient(env, st, r.sender, r);
  }

  // Exactly when a step takes away something that waits.
  lemma ItemStays(env: Env, st: State, a: Action, it: Item)
    requires Waits(st, it)
    ensures Waits(Do(env, st, a), it) <==> !Removed(env, st, a, it)
  {
    hide Process, AcceptRequest, AcceptInvite, TakeArchived, Restore, Patient, Genuine, HasMessage, CanBeGroup, GroupOf, Others, AcceptsRequest, AcceptsInvite;
    match a
    case Receive(inner, upTo) => ProcessPatient(env, st, inner, upTo); PatientWaits(st, Do(env, st, a), it);
    case TakeRequest(sender, n) => AcceptRequestPatient(env, st, sender, n, it);
    case DropRequest(sender) => if it.InRequest? { WithoutExactly(st.requests, sender, it.q); }
    case ListRequests => if it.InRequest? { ListedExactly(st.requests, st.contacts, it.q); }
    case TakeInvite(conv, n) => AcceptInvitePatient(env, st, conv, n, it);
    case FromArchive(conv, raw) =>
      if conv in st.convs && env.parse(raw).Some? { ArchivedPatient(env, st, conv, env.parse(raw).value); PatientWaits(st, Do(env, st, a), it); }
    case FromRestore(conv, raw) =>
      if conv in st.convs && env.parse(raw).Some? { ArchivedPatient(env, st, conv, env.parse(raw).value); PatientWaits(st, Do(env, st, a), it); }
    case _ =>
  }

  // ---- Exactly what is stored ----

  lemma AddedExactly(rows: seq<Row>, row: Row, conv: Bytes, id: Bytes)
    ensures HasMessage(rows + [row], conv, id) <==> HasMessage(rows, conv, id) || (row.conv == conv && row.id == id)
  {
    if HasMessage(rows, conv, id) { HeldLater(rows, rows + [row], conv, id); }
    if row.conv == conv && row.id == id { assert (rows + [row])[|rows|] == row; }
  }

  lemma AddMessageExactly(st: State, row: Row, conv: Bytes, id: Bytes)
    ensures HasMessage(AddMessage(st, row).rows, conv, id) <==> HasMessage(st.rows, conv, id) || (row.conv == conv && row.id == id)
  {
    AddedExactly(st.rows, row, conv, id);
  }

  // One of these records is reached, accepted, and has this place.
  ghost predicate SomeWanted(gate: Gate, rs: seq<Rec>, conv: Bytes, id: Bytes) {
    exists i :: Wanted(gate, rs, i) && rs[i].conv == conv && rs[i].id == id
  }

  lemma {:induction false} RowsExactly(gate: Gate, rows: seq<Row>, rs: seq<Rec>, conv: Bytes, id: Bytes)
    ensures HasMessage(RowsAfter(gate, rows, rs), conv, id) <==> HasMessage(rows, conv, id) || SomeWanted(gate, rs, conv, id)
    decreases |rs|
  {
    hide HasMessage;
    RowsGrow(gate, rows, rs);
    if HasMessage(rows, conv, id) { HeldLater(rows, RowsAfter(gate, rows, rs), conv, id); }
    if SomeWanted(gate, rs, conv, id) {
      var i :| Wanted(gate, rs, i) && rs[i].conv == conv && rs[i].id == id;
      WantedIsHeld(gate, rows, rs, i);
    }
    if rs != [] && HasMessage(RowsAfter(gate, rows, rs), conv, id) {
      var front, r := rs[..|rs| - 1], rs[|rs| - 1];
      RowsExactly(gate, rows, front, conv, id);
      AddedExactly(RowsAfter(gate, rows, front), Row(r.conv, r.id, false, r), conv, id);
      if SomeWanted(gate, front, conv, id) {
        var i :| Wanted(gate, front, i) && front[i].conv == conv && front[i].id == id;
        assert front[..i + 1] == rs[..i + 1];
        assert Wanted(gate, rs, i) && rs[i] == front[i];
      } else if !HasMessage(rows, conv, id) {
        assert rs[..|rs|] == rs;
        assert Wanted(gate, rs, |rs| - 1);
      }
    }
  }

  // A record held under an invitation is for this user once the group is there: its sender is known, and a member.
  predicate HeldAdmits(env: Env, st: State, r: Rec) {
    r.sender in st.contacts + st.introduced && Admits(env, st.convs, FromMember, r.sender, r)
  }

  lemma HeldOne(env: Env, st: State, r: Rec)
    ensures var st' := HandleGroup(env, st, r.sender, r);
            st'.convs == st.convs && st'.contacts == st.contacts && st'.introduced == st.introduced
    ensures env.signedBy(r.raw, r.sender) ==>
              HandleGroup(env, st, r.sender, r).rows == if Admits(env, st.convs, FromMember, r.sender, r) then AddRow(st.rows, r) else st.rows
  {
    hide HasMessage, GroupOf;
  }

  lemma {:induction false} HeldExactly(env: Env, st: State, rs: seq<Rec>, conv: Bytes, id: Bytes)
    ensures var st' := HandleHeld(env, st, rs);
            && (HasMessage(st'.rows, conv, id) <==>
                  HasMessage(st.rows, conv, id) || exists i :: 0 <= i < |rs| && HeldAdmits(env, st, rs[i]) && rs[i].conv == conv && rs[i].id == id)
            && st'.convs == st.convs && st'.contacts == st.contacts && st'.introduced == st.introduced
    decreases |rs|
  {
    if rs != [] {
      hide HandleGroup, Admits, HasMessage;
      var front, r := rs[..|rs| - 1], rs[|rs| - 1];
      HeldExactly(env, st, front, conv, id);
      var before := HandleHeld(env, st, front);
      HeldOne(env, before, r);
      SignedIfAdmitted(env, st.convs, r);
      AddedExactly(before.rows, Row(r.conv, r.id, false, r), conv, id);
      assert rs == front + [r];
    }
  }

  lemma SignedIfAdmitted(env: Env, convs: map<Bytes, Conv>, r: Rec)
    ensures Admits(env, convs, FromMember, r.sender, r) ==> env.signedBy(r.raw, r.sender)
  {
  }

  // The state once the group of an accepted invitation is there.
  function Joined(env: Env, st: State, id: Bytes): State
    requires AcceptsInvite(env, st, id)
  {
    CreateGroup(st, id, st.invites[id].creator, Others(env, FirstRecord(env, st, id).members.value))
  }

  // Taking up an invitation brings its creation record, and of what it held when it was read, what is for this user.
  predicate InviteBrings(env: Env, st: State, id: Bytes, n: nat, conv: Bytes, mid: Bytes) {
    && AcceptsInvite(env, st, id)
    && var records := ReadUpTo(st.invites[id].records, n);
       || (conv == id && mid == records[0].id)
       || exists i :: 0 < i < |records| && HeldAdmits(env, Joined(env, st, id), records[i]) && records[i].conv == conv && records[i].id == mid
  }

  lemma InviteExactly(env: Env, st: State, id: Bytes, n: nat, conv: Bytes, mid: Bytes)
    ensures HasMessage(AcceptInvite(env, st, id, n).rows, conv, mid) <==> HasMessage(st.rows, conv, mid) || InviteBrings(env, st, id, n, conv, mid)
    ensures AcceptsInvite(env, st, id) ==> AcceptInvite(env, st, id, n).convs == Joined(env, st, id).convs
  {
    hide HandleHeld, HasMessage, Admits, Others, CanBeGroup, GroupOf;
    if AcceptsInvite(env, st, id) {
      var records, st1 := ReadUpTo(st.invites[id].records, n), Joined(env, st, id);
      var row := Row(id, records[0].id, false, records[0]);
      var st2 := AddMessage(st1, row);
      AddMessageExactly(st1, row, conv, mid);
      HeldExactly(env, st2, records[1..], conv, mid);
      assert forall r :: HeldAdmits(env, st2, r) == HeldAdmits(env, st1, r);
      assert forall i :: 0 < i < |records| ==> records[i] == records[1..][i - 1];
      assert forall i :: 0 <= i < |records[1..]| ==> records[1..][i] == records[i + 1];
    }
  }

  // Accepting a request brings what its sender's records, as many as were read, would bring from a contact.
  ghost predicate RequestBrings(env: Env, st: State, sender: Bytes, n: nat, conv: Bytes, id: Bytes) {
    && FirstOf(st.requests, sender, n) != []
    && SomeWanted(GateOf(env, st.convs, FromContact, sender), Merged(FirstOf(st.requests, sender, n), sender).records, conv, id)
  }

  lemma RequestExactly(env: Env, st: State, sender: Bytes, n: nat, conv: Bytes, id: Bytes)
    ensures HasMessage(AcceptRequest(env, st, sender, n).st.rows, conv, id) <==> HasMessage(st.rows, conv, id) || RequestBrings(env, st, sender, n, conv, id)
  {
    hide HandleAll, HasMessage, GateOf, Merged, RowsAfter, SomeWanted;
    if FirstOf(st.requests, sender, n) != [] {
      var q, st1 := Merged(FirstOf(st.requests, sender, n), sender), st.(contacts := st.contacts + {sender});
      AllRecords(env, st1, FromContact, sender, q.introduced, q.records);
      RowsExactly(GateOf(env, st.convs, FromContact, sender), st.rows, q.records, conv, id);
    }
  }

  // A chat's archive brings a record that is a known person's message for that chat: in a group from a member, one to one
  // from a contact.
  predicate ArchiveBrings(env: Env, st: State, conv: Bytes, r: Rec) {
    && conv in st.convs && r.conv == conv && r.sender != env.me
    && if st.convs[conv].group then HeldAdmits(env, st, r)
       else r.sender in st.contacts && Admits(env, st.convs, FromContact, r.sender, r) && !Throws(env, st.convs, FromContact, r.sender, r)
  }

  lemma ArchiveExactly(env: Env, st: State, conv: Bytes, r: Rec)
    requires conv in st.convs
    ensures TakeArchived(env, st, conv, r).st.rows == if ArchiveBrings(env, st, conv, r) then AddRow(st.rows, r) else st.rows
  {
    hide HasMessage, GroupOf;
  }

  // Restoring brings a record bound to the chat's members: this user's own, or a known member's.
  predicate RestoreBrings(env: Env, st: State, conv: Bytes, r: Rec) {
    && conv in st.convs && r.conv == conv && Bound(env, st.convs[conv], r) && env.signedBy(r.raw, r.sender)
    && (r.sender == env.me || (r.sender in st.convs[conv].members && r.sender in st.contacts + st.introduced))
    && (IsMessage(r) || r.kind == Creation)
  }

  // What a step brings into the messages.
  ghost predicate Brings(env: Env, st: State, a: Action, conv: Bytes, id: Bytes) {
    match a
    case Receive(inner, upTo) => SomeWanted(GateFor(env, st, inner), Upto(Parsed(env, inner.records), upTo), conv, id)
    case TakeRequest(sender, n) => RequestBrings(env, st, sender, n, conv, id)
    case TakeInvite(c, n) => InviteBrings(env, st, c, n, conv, id)
    case FromArchive(c, raw) => env.parse(raw).Some? && ArchiveBrings(env, st, c, env.parse(raw).value) && c == conv && env.parse(raw).value.id == id
    case FromRestore(c, raw) => env.parse(raw).Some? && RestoreBrings(env, st, c, env.parse(raw).value) && c == conv && env.parse(raw).value.id == id
    case Send(r) => Genuine(env, r) && r.conv == conv && r.id == id
    case _ => false
  }

  // Exactly what is stored after any step: what was, and what the step brings.
  lemma StoredExactly(env: Env, st: State, a: Action, conv: Bytes, id: Bytes)
    ensures HasMessage(Do(env, st, a).rows, conv, id) <==> HasMessage(st.rows, conv, id) || Brings(env, st, a, conv, id)
  {
    hide Process, AcceptRequest, AcceptInvite, TakeArchived, Restore, CanBeGroup, Others, HasMessage, RowsAfter, SomeWanted, GateFor, Admits, Throws, Bound, Genuine,
         RequestBrings, InviteBrings, ArchiveBrings, HeldAdmits;
    match a
    case Receive(inner, upTo) => ProcessRows(env, st, inner, upTo); RowsExactly(GateFor(env, st, inner), st.rows, Upto(Parsed(env, inner.records), upTo), conv, id);
    case TakeRequest(sender, n) => RequestExactly(env, st, sender, n, conv, id);
    case TakeInvite(c, n) => InviteExactly(env, st, c, n, conv, id);
    case FromArchive(c, raw) => FromArchiveExactly(env, st, c, raw, conv, id);
    case FromRestore(c, raw) => FromRestoreExactly(env, st, c, raw, conv, id);
    case Send(r) => AddMessageExactly(st, Row(r.conv, r.id, true, r), conv, id);
    case _ =>
  }

  lemma FromArchiveExactly(env: Env, st: State, c: Bytes, raw: Bytes, conv: Bytes, id: Bytes)
    ensures HasMessage(Do(env, st, FromArchive(c, raw)).rows, conv, id) <==> HasMessage(st.rows, conv, id) || Brings(env, st, FromArchive(c, raw), conv, id)
  {
    hide TakeArchived, HasMessage, HeldAdmits, Admits, Throws;
    if c in st.convs && env.parse(raw).Some? {
      var r := env.parse(raw).value;
      ArchiveExactly(env, st, c, r);
      AddedExactly(st.rows, Row(r.conv, r.id, false, r), conv, id);
    }
  }

  lemma FromRestoreExactly(env: Env, st: State, c: Bytes, raw: Bytes, conv: Bytes, id: Bytes)
    ensures HasMessage(Do(env, st, FromRestore(c, raw)).rows, conv, id) <==> HasMessage(st.rows, conv, id) || Brings(env, st, FromRestore(c, raw), conv, id)
  {
    hide HasMessage;
    if c in st.convs && env.parse(raw).Some? {
      var r := env.parse(raw).value;
      AddMessageExactly(st, Row(c, r.id, r.sender == env.me, r), conv, id);
    }
  }

  lemma {:induction false} MergedHas(requests: seq<Request>, sender: Bytes, q: Request, r: Rec)
    requires q in requests && q.sender == sender && r in q.records
    ensures r in Merged(requests, sender).records
    decreases |requests|
  {
    if q in requests[1..] { MergedHas(requests[1..], sender, q, r); }
  }

  lemma {:induction false} FirstAreTheirs(requests: seq<Request>, sender: Bytes, n: nat, q: Request)
    requires q in FirstOf(requests, sender, n)
    ensures q.sender == sender && q in requests
    decreases |requests|
  {
    if requests[0].sender == sender {
      if q in FirstOf(requests[1..], sender, n - 1) { FirstAreTheirs(requests[1..], sender, n - 1, q); }
    } else {
      FirstAreTheirs(requests[1..], sender, n, q);
    }
  }

  // Every message for this user in a request that was read and accepted is stored.
  lemma RequestComesIn(env: Env, st: State, sender: Bytes, n: nat, q: Request, r: Rec)
    requires AcceptsRequest(env, st, sender, n) && q in FirstOf(st.requests, sender, n) && r in q.records
    requires Admits(env, st.convs, FromContact, sender, r)
    ensures HasMessage(AcceptRequest(env, st, sender, n).st.rows, r.conv, r.id)
  {
    hide HandleAll, HasMessage, Merged, FirstOf, Admits, RowsAfter;
    var first, st1 := FirstOf(st.requests, sender, n), st.(contacts := st.contacts + {sender});
    var m, gate := Merged(first, sender), GateOf(env, st.convs, FromContact, sender);
    FirstAreTheirs(st.requests, sender, n, q);
    MergedHas(first, sender, q, r);
    AllRecords(env, st1, FromContact, sender, m.introduced, m.records);
    var i :| 0 <= i < |m.records| && m.records[i] == r;
    NotStopped(gate, m.records, i);
    assert Wanted(gate, m.records, i);
    RequestExactly(env, st, sender, n, r.conv, r.id);
  }

  lemma NotStopped(gate: Gate, rs: seq<Rec>, i: nat)
    requires i < |rs| && !Stops(gate, rs)
    ensures !Stops(gate, rs[..i + 1])
  {
  }

  // The order in which people are named makes no difference to their hash.
  ghost predicate OrderFree(env: Env) {
    forall a, b :: multiset(a) == multiset(b) ==> env.recipientsHash(a) == env.recipientsHash(b)
  }

  lemma {:induction false} OthersAre(env: Env, members: seq<Bytes>)
    ensures multiset(Others(env, members)) == multiset(members)[env.me := 0]
    decreases |members|
  {
    if members != [] {
      OthersAre(env, members[1..]);
      assert members == [members[0]] + members[1..];
    }
  }

  // What was held for a group is stored once its invitation is accepted: a known member's text, bound to those the creation
  // record names.
  lemma HeldComesIn(env: Env, st: State, id: Bytes, n: nat, i: nat)
    requires OrderFree(env) && AcceptsInvite(env, st, id) && id !in st.convs && 0 < i < |ReadUpTo(st.invites[id].records, n)|
    requires var r, members := ReadUpTo(st.invites[id].records, n)[i], FirstRecord(env, st, id).members.value;
             && r.conv == id && r.kind == Text && r.sender != env.me && r.sender in members && multiset(members)[env.me] == 1
             && r.recipients == env.recipientsHash(members) && env.signedBy(r.raw, r.sender) && r.sender in st.contacts + st.introduced
    ensures HasMessage(AcceptInvite(env, st, id, n).rows, id, ReadUpTo(st.invites[id].records, n)[i].id)
  {
    hide HasMessage, AcceptInvite, CanBeGroup;
    var r, members := ReadUpTo(st.invites[id].records, n)[i], FirstRecord(env, st, id).members.value;
    OthersAre(env, members);
    assert multiset([env.me] + Others(env, members)) == multiset(members);
    assert r.sender in multiset(Others(env, members));
    assert HeldAdmits(env, Joined(env, st, id), r);
    InviteExactly(env, st, id, n, id, r.id);
  }

  // What was promised of an item when the user took it up, in the state they did: its messages are stored.
  ghost predicate TakenUp(env: Env, st: State, it: Item, rows: seq<Row>) {
    match it
    case InRequest(q) => forall r :: r in q.records && Admits(env, st.convs, FromContact, q.sender, r) ==> HasMessage(rows, r.conv, r.id)
    case InInvite(c, r) =>
      && AcceptsInvite(env, st, c)
      && (r == FirstRecord(env, st, c) ==> HasMessage(rows, c, r.id))
      && (HeldAdmits(env, Joined(env, st, c), r) ==> HasMessage(rows, r.conv, r.id))
  }

  lemma TakenUpLater(env: Env, st: State, it: Item, rows: seq<Row>, rows': seq<Row>)
    requires TakenUp(env, st, it, rows) && rows <= rows'
    ensures TakenUp(env, st, it, rows')
  {
    hide HasMessage, Admits, AcceptsInvite;
    match it
    case InRequest(q) =>
      forall r | r in q.records && Admits(env, st.convs, FromContact, q.sender, r) ensures HasMessage(rows', r.conv, r.id) { HeldLater(rows, rows', r.conv, r.id); }
    case InInvite(c, r) =>
      if HasMessage(rows, c, r.id) { HeldLater(rows, rows', c, r.id); }
      if HasMessage(rows, r.conv, r.id) { HeldLater(rows, rows', r.conv, r.id); }
  }

  // The user's yes to an item that was read stores what it promised.
  lemma TakingUp(env: Env, st: State, a: Action, it: Item)
    requires Waits(st, it) && Removed(env, st, a, it) && !Unread(env, st, a, it) && (a.TakeRequest? || a.TakeInvite?)
    ensures TakenUp(env, st, it, Do(env, st, a).rows)
  {
    hide HasMessage, Admits, AcceptRequest, AcceptInvite, AcceptsRequest, AcceptsInvite;
    match it
    case InRequest(q) =>
      forall r | r in q.records && Admits(env, st.convs, FromContact, q.sender, r) ensures HasMessage(Do(env, st, a).rows, r.conv, r.id) {
        RequestComesIn(env, st, q.sender, a.n, q, r);
      }
    case InInvite(c, r) =>
      var records := ReadUpTo(st.invites[c].records, a.n);
      InviteExactly(env, st, c, a.n, c, r.id);
      InviteExactly(env, st, c, a.n, r.conv, r.id);
      var i :| 0 <= i < |records| && records[i] == r;
      if i == 0 { NotBoth(env, st, c); }
  }

  lemma NotBoth(env: Env, st: State, id: Bytes)
    requires AcceptsInvite(env, st, id)
    ensures !HeldAdmits(env, Joined(env, st, id), FirstRecord(env, st, id))
  {
  }

  // ---- A whole archive, a whole restore ----

  function FromArchives(conv: Bytes, raws: seq<Bytes>): seq<Action> {
    seq(|raws|, i requires 0 <= i < |raws| => FromArchive(conv, raws[i]))
  }

  function FromRestores(conv: Bytes, raws: seq<Bytes>): seq<Action> {
    seq(|raws|, i requires 0 <= i < |raws| => FromRestore(conv, raws[i]))
  }

  // What decides about the next record is as it was.
  predicate SamePeople(st: State, st': State) {
    st'.convs == st.convs && st'.contacts == st.contacts && st'.introduced == st.introduced
  }

  lemma OneFromArchive(env: Env, st: State, conv: Bytes, raw: Bytes)
    ensures SamePeople(st, Do(env, st, FromArchive(conv, raw))) && SamePeople(st, Do(env, st, FromRestore(conv, raw)))
  {
    hide HasMessage, GroupOf, Bound, IsMessage;
  }

  // Every record of a chat's archive that is for this user, as things stood, is among the messages after the catch-up.
  lemma {:induction false} ArchiveComesIn(env: Env, st: State, conv: Bytes, raws: seq<Bytes>, i: nat)
    requires i < |raws| && env.parse(raws[i]).Some? && ArchiveBrings(env, st, conv, env.parse(raws[i]).value)
    ensures HasMessage(Run(env, st, FromArchives(conv, raws)).rows, conv, env.parse(raws[i]).value.id)
    decreases |raws|
  {
    hide Do, HasMessage, ArchiveBrings;
    var r, st1 := env.parse(raws[i]).value, Do(env, st, FromArchive(conv, raws[0]));
    assert FromArchives(conv, raws)[1..] == FromArchives(conv, raws[1..]);
    OneFromArchive(env, st, conv, raws[0]);
    StoredExactly(env, st, FromArchive(conv, raws[0]), conv, r.id);
    if i == 0 { HeldThrough(env, st1, FromArchives(conv, raws[1..]), conv, r.id); }
    else { SameArchiveBrings(env, st, st1, conv, r); ArchiveComesIn(env, st1, conv, raws[1..], i - 1); }
  }

  lemma SameArchiveBrings(env: Env, st: State, st': State, conv: Bytes, r: Rec)
    requires SamePeople(st, st')
    ensures ArchiveBrings(env, st', conv, r) == ArchiveBrings(env, st, conv, r) && RestoreBrings(env, st', conv, r) == RestoreBrings(env, st, conv, r)
  {
    hide Admits, Throws, Bound, IsMessage;
  }

  // Every record of a chat that can be restored, as things stood, is among the messages after the restore.
  lemma {:induction false} RestoreComesIn(env: Env, st: State, conv: Bytes, raws: seq<Bytes>, i: nat)
    requires i < |raws| && env.parse(raws[i]).Some? && RestoreBrings(env, st, conv, env.parse(raws[i]).value)
    ensures HasMessage(Run(env, st, FromRestores(conv, raws)).rows, conv, env.parse(raws[i]).value.id)
    decreases |raws|
  {
    hide Do, HasMessage, RestoreBrings;
    var r, st1 := env.parse(raws[i]).value, Do(env, st, FromRestore(conv, raws[0]));
    assert FromRestores(conv, raws)[1..] == FromRestores(conv, raws[1..]);
    OneFromArchive(env, st, conv, raws[0]);
    StoredExactly(env, st, FromRestore(conv, raws[0]), conv, r.id);
    if i == 0 { HeldThrough(env, st1, FromRestores(conv, raws[1..]), conv, r.id); }
    else { SameArchiveBrings(env, st, st1, conv, r); RestoreComesIn(env, st1, conv, raws[1..], i - 1); }
  }

  // What is stored stays, whatever happens.
  lemma {:induction false} HeldThrough(env: Env, st: State, actions: seq<Action>, conv: Bytes, id: Bytes)
    requires HasMessage(st.rows, conv, id)
    ensures HasMessage(Run(env, st, actions).rows, conv, id)
    decreases |actions|
  {
    if actions != [] {
      hide Do, HasMessage;
      StoredExactly(env, st, actions[0], conv, id);
      HeldThrough(env, Do(env, st, actions[0]), actions[1..], conv, id);
    }
  }

  // A group is restored from its creation record: then all of its messages are, this user's own and every known member's.
  lemma GroupRestored(env: Env, st: State, raw: Bytes, raws: seq<Bytes>, i: nat)
    requires env.parse(raw).Some? && i < |raws| && env.parse(raws[i]).Some?
    requires var first := env.parse(raw).value;
             && GroupOf(first).Some? && (first.sender == env.me || first.sender in st.contacts + st.introduced) && env.signedBy(first.raw, first.sender)
             && env.me in first.members.value && CanBeGroup(Others(env, first.members.value)) && first.conv !in st.convs
    requires var first, r := env.parse(raw).value, env.parse(raws[i]).value;
             var group := Conv(true, first.sender, Others(env, first.members.value));
             && r.conv == first.conv && Bound(env, group, r) && env.signedBy(r.raw, r.sender) && (IsMessage(r) || r.kind == Creation)
             && (r.sender == env.me || (r.sender in group.members && r.sender in st.contacts + st.introduced))
    ensures var first := env.parse(raw).value;
            HasMessage(Run(env, st, [MakeGroup(raw)] + FromRestores(first.conv, raws)).rows, first.conv, env.parse(raws[i]).value.id)
  {
    hide HasMessage, Bound, CanBeGroup, Others, IsMessage;
    var first := env.parse(raw).value;
    var actions, st1 := [MakeGroup(raw)] + FromRestores(first.conv, raws), Do(env, st, MakeGroup(raw));
    assert actions[1..] == FromRestores(first.conv, raws);
    RestoreComesIn(env, st1, first.conv, raws, i);
  }

  // A one-to-one chat is restored from the contact alone.
  lemma DirectRestored(env: Env, st: State, fp: Bytes, raws: seq<Bytes>, i: nat)
    requires fp in st.contacts && i < |raws| && env.parse(raws[i]).Some?
    requires var conv, r := env.conversationId(env.me, fp), env.parse(raws[i]).value;
             && (conv in st.convs ==> st.convs[conv] == Conv(false, [], [fp]))
             && r.conv == conv && r.recipients == env.recipientsHash([env.me, fp]) && env.signedBy(r.raw, r.sender) && IsMessage(r)
             && (r.sender == env.me || r.sender == fp)
    ensures var conv := env.conversationId(env.me, fp);
            HasMessage(Run(env, st, [MakeDirect(fp)] + FromRestores(conv, raws)).rows, conv, env.parse(raws[i]).value.id)
  {
    hide HasMessage, IsMessage;
    var conv := env.conversationId(env.me, fp);
    var actions, st1 := [MakeDirect(fp)] + FromRestores(conv, raws), Do(env, st, MakeDirect(fp));
    assert actions[1..] == FromRestores(conv, raws);
    assert [env.me] + [fp] == [env.me, fp];
    RestoreComesIn(env, st1, conv, raws, i);
  }

  // ---- Exactly what waits ----

  lemma GroupWaitsExactly(env: Env, st: State, fp: Bytes, r: Rec, it: Item)
    requires r.sender == fp
    ensures Waits(HandleGroup(env, st, fp, r), it) <==> Waits(st, it) || (HeldBack(env, st, fp, r) && it == InInvite(r.conv, r))
  {
    hide Bound, IsMessage, HasMessage;
  }

  lemma InviteWaitsExactly(env: Env, st: State, creator: Bytes, r: Rec, introduced: seq<Bytes>, it: Item)
    requires r.sender == creator
    ensures Waits(ReceiveInvite(env, st, creator, r, introduced), it) <==> Waits(st, it) || (Invites(env, st, creator, r) && it == InInvite(r.conv, r))
  {
    hide SameMembers;
  }

  lemma OneWaitsExactly(env: Env, st: State, route: Route, sender: Bytes, introduced: seq<Bytes>, r: Rec, it: Item)
    requires route == FromContact || route == FromMember
    ensures Waits(HandleOne(env, st, route, sender, introduced, r).st, it) <==> Waits(st, it) || (Delays(env, st, route, sender, r) && it == InInvite(r.conv, r))
  {
    hide ReceiveInvite, HandleGroup, Invites, HeldBack, HasMessage;
    if r.sender == sender {
      InviteWaitsExactly(env, st, sender, r, introduced, it);
      GroupWaitsExactly(env, st, sender, r, it);
    }
  }

  // One of these records is reached, and has to wait as this item.
  ghost predicate SomeDelayed(env: Env, st: State, route: Route, sender: Bytes, introduced: seq<Bytes>, rs: seq<Rec>, it: Item) {
    exists i :: 0 <= i < |rs| && DelaysAt(env, st, route, sender, introduced, rs, i) && it == InInvite(rs[i].conv, rs[i])
                && !HandleAll(env, st, route, sender, introduced, rs[..i]).threw
  }

  lemma {:induction false} AllWaitExactly(env: Env, st: State, route: Route, sender: Bytes, introduced: seq<Bytes>, rs: seq<Rec>, it: Item)
    requires route == FromContact || route == FromMember
    ensures Waits(HandleAll(env, st, route, sender, introduced, rs).st, it) <==> Waits(st, it) || SomeDelayed(env, st, route, sender, introduced, rs, it)
    decreases |rs|
  {
    if rs == [] {
      NoneHandled(env, st, route, sender, introduced);
    } else {
      hide HandleOne, Waits, Delays;
      var front, r := rs[..|rs| - 1], rs[|rs| - 1];
      var before := HandleAll(env, st, route, sender, introduced, front);
      AllWaitExactly(env, st, route, sender, introduced, front, it);
      OneWaitsExactly(env, before.st, route, sender, introduced, r, it);
      DelayedMore(env, st, route, sender, introduced, rs, it);
    }
  }

  lemma DelayedMore(env: Env, st: State, route: Route, sender: Bytes, introduced: seq<Bytes>, rs: seq<Rec>, it: Item)
    requires rs != []
    ensures var front, r := rs[..|rs| - 1], rs[|rs| - 1];
            var before := HandleAll(env, st, route, sender, introduced, front);
            SomeDelayed(env, st, route, sender, introduced, rs, it) <==>
              SomeDelayed(env, st, route, sender, introduced, front, it) || (!before.threw && Delays(env, before.st, route, sender, r) && it == InInvite(r.conv, r))
  {
    hide HandleAll, Delays;
    var front := rs[..|rs| - 1];
    assert forall i :: 0 <= i < |front| ==> front[..i] == rs[..i] && front[i] == rs[i];
    if SomeDelayed(env, st, route, sender, introduced, front, it) {
      var i :| 0 <= i < |front| && DelaysAt(env, st, route, sender, introduced, front, i) && it == InInvite(front[i].conv, front[i])
               && !HandleAll(env, st, route, sender, introduced, front[..i]).threw;
      assert DelaysAt(env, st, route, sender, introduced, rs, i);
    }
    if SomeDelayed(env, st, route, sender, introduced, rs, it) {
      var i :| 0 <= i < |rs| && DelaysAt(env, st, route, sender, introduced, rs, i) && it == InInvite(rs[i].conv, rs[i])
               && !HandleAll(env, st, route, sender, introduced, rs[..i]).threw;
      if i < |front| { assert DelaysAt(env, st, route, sender, introduced, front, i); }
    }
  }

  // What an envelope leaves waiting: a stranger's request, if it was handled to the end and there was room, or those of its
  // records that have to wait.
  ghost predicate EnvelopeDelays(env: Env, st: State, inner: Inner, upTo: nat, it: Item) {
    var rs := Parsed(env, inner.records);
    var route, sender := RouteOf(env, st, inner, rs), Sender(env, inner);
    if route == FromStranger then
      && |rs| <= upTo && Verified(env, sender, rs) != [] && |st.requests| < MAX_PENDING_REQUESTS
      && it == InRequest(Request(sender, Verified(env, sender, rs), if HasCreation(Verified(env, sender, rs)) then inner.introduced else []))
    else route != Dropped && SomeDelayed(env, st, route, sender, inner.introduced, Upto(rs, upTo), it)
  }

  lemma EnvelopeWaitsExactly(env: Env, st: State, inner: Inner, upTo: nat, it: Item)
    ensures Waits(Process(env, st, inner, upTo).st, it) <==> Waits(st, it) || EnvelopeDelays(env, st, inner, upTo, it)
  {
    hide HandleAll, SomeDelayed, ForAGroup, Verified;
    var rs := Parsed(env, inner.records);
    var route := RouteOf(env, st, inner, rs);
    if route == FromContact || route == FromMember { AllWaitExactly(env, st, route, rs[0].sender, inner.introduced, Upto(rs, upTo), it); }
  }

  // What of an accepted request still has to wait: the invitations in it, and what goes with them.
  ghost predicate RequestDelays(env: Env, st: State, sender: Bytes, n: nat, it: Item) {
    && FirstOf(st.requests, sender, n) != []
    && var q := Merged(FirstOf(st.requests, sender, n), sender);
       SomeDelayed(env, st.(contacts := st.contacts + {sender}), FromContact, sender, q.introduced, q.records, it)
  }

  lemma RequestWaitsExactly(env: Env, st: State, sender: Bytes, n: nat, it: Item)
    ensures Waits(AcceptRequest(env, st, sender, n).st, it) <==>
              (Waits(st, it) && !(it.InRequest? && it.q.sender == sender && AcceptsRequest(env, st, sender, n))) || RequestDelays(env, st, sender, n, it)
  {
    hide HandleAll, SomeDelayed, Merged, FirstOf;
    if FirstOf(st.requests, sender, n) != [] {
      var q, st1 := Merged(FirstOf(st.requests, sender, n), sender), st.(contacts := st.contacts + {sender});
      AllWaitExactly(env, st1, FromContact, sender, q.introduced, q.records, it);
      InviteOnly(env, st1, FromContact, sender, q.introduced, q.records, it);
      if Waits(st, it) { AcceptRequestPatient(env, st, sender, n, it); }
      else if it.InRequest? { NotAdded(HandleAll(env, st1, FromContact, sender, q.introduced, q.records).st.requests, sender, it.q); }
    }
  }

  lemma InviteOnly(env: Env, st: State, route: Route, sender: Bytes, introduced: seq<Bytes>, rs: seq<Rec>, it: Item)
    ensures SomeDelayed(env, st, route, sender, introduced, rs, it) ==> it.InInvite?
  {
    hide HandleAll, Delays;
  }

  // Who becomes known by an invitation: exactly those it brings the bundles of who are members, and neither this user, nor
  // its sender, nor contacts; and only if it is a valid one, new or known.
  lemma IntroducedExactly(env: Env, st: State, creator: Bytes, r: Rec, introduced: seq<Bytes>, fp: Bytes)
    requires r.sender == creator
    ensures var st' := ReceiveInvite(env, st, creator, r, introduced);
            fp in st'.introduced <==>
              || fp in st.introduced
              || (&& fp in introduced && GroupOf(r).Some? && fp in r.members.value && fp != env.me && fp != creator && fp !in st.contacts
                  && (Invites(env, st, creator, r) || InGroup(env, st, creator, r)))
  {
    hide SameMembers;
  }

  // The group an invitation is for is one this device is in already, as its sender made it.
  predicate InGroup(env: Env, st: State, creator: Bytes, r: Rec) {
    && GroupOf(r).Some? && env.me in r.members.value && r.conv != env.conversationId(env.me, creator)
    && r.conv in st.convs && st.convs[r.conv].group && st.convs[r.conv].creator == creator && SameMembers(env, st.convs[r.conv], r.members.value)
  }

  // ---- What an envelope brings, by who sent it ----

  lemma {:induction false} ParsedExactly(env: Env, raws: seq<Bytes>, r: Rec)
    ensures r in Parsed(env, raws) <==> exists i :: 0 <= i < |raws| && env.parse(raws[i]) == Some(r)
    decreases |raws|
  {
    if raws != [] {
      ParsedExactly(env, raws[1..], r);
      assert raws == [raws[0]] + raws[1..];
    }
  }

  lemma {:induction false} VerifiedExactly(env: Env, sender: Bytes, rs: seq<Rec>, r: Rec)
    ensures r in Verified(env, sender, rs) <==> r in rs && r.sender == sender && env.signedBy(r.raw, sender)
    decreases |rs|
  {
    if rs != [] { VerifiedExactly(env, sender, rs[1..], r); }
  }

  lemma {:induction false} MergedExactly(requests: seq<Request>, sender: Bytes, r: Rec)
    ensures r in Merged(requests, sender).records <==> exists i :: 0 <= i < |requests| && requests[i].sender == sender && r in requests[i].records
    decreases |requests|
  {
    if requests != [] {
      MergedExactly(requests[1..], sender, r);
      assert requests == [requests[0]] + requests[1..];
    }
  }

  lemma {:induction false} AllOfTheirs(requests: seq<Request>, sender: Bytes, n: nat, q: Request)
    requires |requests| <= n
    ensures q in FirstOf(requests, sender, n) <==> q in requests && q.sender == sender
    decreases |requests|
  {
    if requests != [] {
      AllOfTheirs(requests[1..], sender, if requests[0].sender == sender then n - 1 else n, q);
      assert requests == [requests[0]] + requests[1..];
    }
  }

  // One of the records is for a group this device is in or is invited to.
  predicate SharesGroup(st: State, rs: seq<Rec>) {
    exists i :: 0 <= i < |rs| && (rs[i].conv in st.invites || (rs[i].conv in st.convs && st.convs[rs[i].conv].group))
  }

  // From a contact, every message for this user is stored, up to the first that throws.
  lemma ContactComesIn(env: Env, st: State, inner: Inner, i: nat)
    requires var rs := Parsed(env, inner.records);
             && i < |rs| && rs[0].sender != env.me && rs[0].sender in st.contacts && Admits(env, st.convs, FromContact, rs[0].sender, rs[i])
             && forall j :: 0 <= j <= i ==> !Throws(env, st.convs, FromContact, rs[0].sender, rs[j])
    ensures var rs := Parsed(env, inner.records); HasMessage(Process(env, st, inner, |rs|).st.rows, rs[i].conv, rs[i].id)
  {
    hide Process, HasMessage, Admits, Throws, RowsAfter, Parsed;
    var rs, gate := Parsed(env, inner.records), GateFor(env, st, inner);
    assert Upto(rs, |rs|) == rs;
    ProcessRows(env, st, inner, |rs|);
    assert Wanted(gate, rs, i);
    WantedIsHeld(gate, st.rows, rs, i);
  }

  // From someone introduced as a member of a shared group, every message for that group is.
  lemma MemberComesIn(env: Env, st: State, inner: Inner, i: nat)
    requires var rs := Parsed(env, inner.records);
             && i < |rs| && rs[0].sender != env.me && rs[0].sender !in st.contacts && rs[0].sender in st.introduced && SharesGroup(st, rs)
             && Admits(env, st.convs, FromMember, rs[0].sender, rs[i])
    ensures var rs := Parsed(env, inner.records); HasMessage(Process(env, st, inner, |rs|).st.rows, rs[i].conv, rs[i].id)
  {
    hide Process, HasMessage, Admits, RowsAfter, Parsed;
    var rs, gate := Parsed(env, inner.records), GateFor(env, st, inner);
    assert Upto(rs, |rs|) == rs;
    ProcessRows(env, st, inner, |rs|);
    assert Wanted(gate, rs, i);
    WantedIsHeld(gate, st.rows, rs, i);
  }

  // A contact's text, or attachment that can be read, for the two of them is stored, unless the ID of their chat is taken.
  lemma DirectComesIn(env: Env, st: State, inner: Inner, i: nat)
    requires var rs := Parsed(env, inner.records);
             && i < |rs| && rs[0].sender != env.me && rs[0].sender in st.contacts && rs[i].sender == rs[0].sender && env.signedBy(rs[i].raw, rs[0].sender)
             && (rs[i].kind == Text || (rs[i].kind == Attachment && rs[i].payloadOk))
             && rs[i].conv == env.conversationId(env.me, rs[0].sender) && rs[i].recipients == env.recipientsHash([env.me, rs[0].sender])
             && (rs[i].conv in st.convs ==> st.convs[rs[i].conv] == Conv(false, [], [rs[0].sender]))
    ensures var rs := Parsed(env, inner.records); HasMessage(Process(env, st, inner, |rs|).st.rows, rs[i].conv, rs[i].id)
  {
    hide Process, HasMessage, Parsed;
    ContactComesIn(env, st, inner, i);
  }

  // Nothing but texts and readable attachments comes in by an envelope.
  lemma {:induction false} OnlyMessagesComeIn(gate: Gate, rows: seq<Row>, rs: seq<Rec>, i: nat)
    requires |rows| <= i < |RowsAfter(gate, rows, rs)| && forall r :: gate.accepts(r) ==> r.kind == Text || (r.kind == Attachment && r.payloadOk)
    ensures var r := RowsAfter(gate, rows, rs)[i].rec; r.kind == Text || (r.kind == Attachment && r.payloadOk)
    decreases |rs|
  {
    if rs != [] && i < |RowsAfter(gate, rows, rs[..|rs| - 1])| { OnlyMessagesComeIn(gate, rows, rs[..|rs| - 1], i); }
  }

  lemma EnvelopeKinds(env: Env, st: State, inner: Inner, upTo: nat, i: nat)
    requires |st.rows| <= i < |Process(env, st, inner, upTo).st.rows|
    ensures var r := Process(env, st, inner, upTo).st.rows[i].rec; r.kind == Text || (r.kind == Attachment && r.payloadOk)
  {
    hide Process, RowsAfter;
    ProcessRows(env, st, inner, upTo);
    OnlyMessagesComeIn(GateFor(env, st, inner), st.rows, Upto(Parsed(env, inner.records), upTo), i);
  }

  // From a stranger who sends their bundle, every verified record waits as one request, if there is room; from anyone
  // else, nothing changes.
  lemma StrangerComesIn(env: Env, st: State, inner: Inner)
    requires var rs := Parsed(env, inner.records); rs != [] ==> rs[0].sender !in st.contacts && !(rs[0].sender in st.introduced && SharesGroup(st, rs))
    ensures var rs, st' := Parsed(env, inner.records), Process(env, st, inner, |Parsed(env, inner.records)|).st;
            && st'.rows == st.rows
            && if rs != [] && rs[0].sender != env.me && inner.bundle == Some(rs[0].sender) && Verified(env, rs[0].sender, rs) != [] && |st.requests| < MAX_PENDING_REQUESTS
               then |st'.requests| == |st.requests| + 1 && st'.requests[..|st.requests|] == st.requests
                    && st'.requests[|st.requests|].sender == rs[0].sender && st'.requests[|st.requests|].records == Verified(env, rs[0].sender, rs)
               else st' == st
  {
    hide HandleAll, Verified;
  }

  // ---- Which chats there are ----

  // The chat a step makes outright, if its ID is free: the user's own group, one rebuilt from its creation record or with a
  // contact, or the group of an invitation they take up.
  predicate Makes(env: Env, st: State, a: Action, c: Bytes, chat: Conv) {
    match a
    case OwnGroup(conv, members) => CanBeGroup(members) && c == conv && chat == Conv(true, env.me, members)
    case MakeDirect(fp) => fp in st.contacts && c == env.conversationId(env.me, fp) && chat == Conv(false, [], [fp])
    case MakeGroup(raw) =>
      && env.parse(raw).Some?
      && var r := env.parse(raw).value;
         && GroupOf(r).Some? && (r.sender == env.me || r.sender in st.contacts + st.introduced) && env.me in r.members.value && env.signedBy(r.raw, r.sender)
         && CanBeGroup(Others(env, r.members.value)) && c == r.conv && chat == Conv(true, r.sender, Others(env, r.members.value))
    case TakeInvite(id, _) =>
      && AcceptsInvite(env, st, id) && c == id
      && chat == Conv(true, st.invites[id].creator, Others(env, FirstRecord(env, st, id).members.value))
    case _ => false
  }

  predicate MakesChats(a: Action) {
    a.OwnGroup? || a.MakeDirect? || a.MakeGroup? || a.TakeInvite?
  }

  lemma ChatsExactly(env: Env, st: State, a: Action, c: Bytes, chat: Conv)
    requires MakesChats(a)
    ensures var st' := Do(env, st, a);
            (c in st'.convs && st'.convs[c] == chat) <==> if c in st.convs then st.convs[c] == chat else Makes(env, st, a, c, chat)
  {
    hide HasMessage, Others, CanBeGroup, AcceptInvite;
    if a.TakeInvite? && AcceptsInvite(env, st, a.conv) { InviteExactly(env, st, a.conv, a.n, c, []); }
    if a.TakeInvite? && !AcceptsInvite(env, st, a.conv) { NotAccepted(env, st, a.conv, a.n); }
  }

  lemma NotAccepted(env: Env, st: State, id: Bytes, n: nat)
    requires !AcceptsInvite(env, st, id)
    ensures AcceptInvite(env, st, id, n) == st
  {
    hide AcceptsInvite, HandleHeld;
  }
}
