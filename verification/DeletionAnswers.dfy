/**
 What becomes of an answer, and of a say.

 A call writes a row's state by the copy it read, so an answer given meanwhile can be overwritten: this module says exactly
 when, and what uninterrupted calls keep. And the relay's registration closes at a time, so a clock that goes back can let in
 someone who had no say in what was redacted: it says exactly when that happens too.
 */
module DeletionAnswers {
  import opened Wire
  import opened SigningInputs
  import opened Deletion
  import opened DeletionProtocol

  predicate Final(state: State) {
    state == Declined || state == Done || state == Expired
  }

  predicate HasRow(w: World, d: nat, op: Bytes) {
    d in w.devices && op in w.devices[d].rows
  }

  // The state a step writes to a row, by the copy its call holds.
  function Written(w: World, a: Action, d: nat, op: Bytes): Option<State> {
    match a
    case SayYes(v, o) => if MaySayYes(w, v, o) && w.views[v].d == d && o == op then Some(Accepted) else None
    case SayNo(v, o) => if MaySayNo(w, v, o) && w.views[v].d == d && o == op then Some(Declined) else None
    case Check(v, o, _, _) => if Lapses(w, v, o) && w.views[v].d == d && o == op then Some(Expired) else None
    case Hear(v) => if MayHear(w, v) && w.replies[v].d == d && w.replies[v].op == op then Some(if w.replies[v].erase then Done else Expired) else None
    case _ => None
  }

  // The copy a check holds is neither answered nor carried out, and its time has passed.
  predicate Lapses(w: World, v: nat, op: Bytes) {
    Sees(w, v, op) && var r := RowSeen(w, v, op); (r.state == Pending || r.state == Accepted) && r.expires <= w.views[v].wall
  }

  // The copy a step goes by.
  function Copy(w: World, a: Action, d: nat, op: Bytes): Row
    requires Written(w, a, d, op).Some?
  {
    if a.Hear? then w.replies[a.v].row else RowSeen(w, a.v, op)
  }

  function After(r: Row, written: Option<State>): Row {
    if written.Some? then r.(state := written.value) else r
  }

  // From one state to the next, the row changes as this says.
  predicate Becomes(w: World, w': World, d: nat, op: Bytes, written: Option<State>)
    requires HasRow(w, d, op)
  {
    HasRow(w', d, op) && w'.devices[d].rows[op] == After(w.devices[d].rows[op], written)
  }

  // One device's row was set; no other row changed.
  lemma SetWrites(w: World, e: nat, o: Bytes, dev: Device, state: State, d: nat, op: Bytes)
    requires HasRow(w, e, o) && HasRow(w, d, op) && dev.rows == w.devices[e].rows[o := w.devices[e].rows[o].(state := state)]
    ensures Becomes(w, Put(w, e, dev), d, op, if e == d && o == op then Some(state) else None)
  {
  }

  lemma SameWrites(w: World, e: nat, dev: Device, d: nat, op: Bytes)
    requires e in w.devices && HasRow(w, d, op) && forall o :: o in w.devices[e].rows ==> o in dev.rows && dev.rows[o] == w.devices[e].rows[o]
    ensures Becomes(w, Put(w, e, dev), d, op, None) && Becomes(w, w, d, op, None)
  {
  }

  lemma DevicesAlike(w: World, w': World, w'': World, d: nat, op: Bytes, written: Option<State>)
    requires HasRow(w, d, op) && Becomes(w, w', d, op, written) && w''.devices == w'.devices
    ensures Becomes(w, w'', d, op, written)
  {
  }

  lemma HearWrites(env: Env, w: World, v: nat, d: nat, op: Bytes)
    requires HasRow(w, d, op)
    ensures Becomes(w, DoDelete(env, w, Hear(v)), d, op, Written(w, Hear(v), d, op))
  {
    hide EraseEntries, Wiped;
    if MayHear(w, v) {
      var x := w.replies[v];
      var dev := w.devices[x.d];
      var dev' := if x.erase then Apply(dev, x.op) else SetState(dev, x.op, Expired);
      hide Becomes;
      SetWrites(w, x.d, x.op, dev', if x.erase then Done else Expired, d, op);
      DevicesAlike(w, Put(w, x.d, dev'), DoHear(w, v), d, op, Written(w, Hear(v), d, op));
    }
  }

  lemma CheckWrites(env: Env, w: World, v: nat, o: Bytes, reached: bool, heard: set<Bytes>, d: nat, op: Bytes)
    requires HasRow(w, d, op)
    ensures Becomes(w, DoDelete(env, w, Check(v, o, reached, heard)), d, op, Written(w, Check(v, o, reached, heard), d, op))
  {
    if Lapses(w, v, o) {
      var e := w.views[v].d;
      hide Becomes;
      SetWrites(w, e, o, SetState(w.devices[e], o, Expired), Expired, d, op);
    } else if Sees(w, v, o) {
      ChecksOnly(env, w, v, o, reached, heard, d, op);
    }
  }

  lemma ChecksOnly(env: Env, w: World, v: nat, o: Bytes, reached: bool, heard: set<Bytes>, d: nat, op: Bytes)
    requires HasRow(w, d, op) && Sees(w, v, o) && !Lapses(w, v, o)
    ensures Becomes(w, DoCheck(env, w, v, o, reached, heard), d, op, None)
  {
    hide SignedIn, IsGone, Noted, Becomes;
    var e, dev, r := w.views[v].d, DeviceOf(w, v, o), RowSeen(w, v, o);
    SameWrites(w, e, dev, d, op);
    var w' := DoCheck(env, w, v, o, reached, heard);
    if JoinedIn(dev, r.conv) && SignedIn(env, w, e, r.conv) {
      IsThereToo(env, w, e, r.conv);
      var noted := Noted(dev.chats[r.conv], w.archives[r.conv].log, heard, r.entries);
      SameWrites(w, e, dev.(chats := dev.chats[r.conv := noted]), d, op);
      if w'.devices != w.devices { DevicesAlike(w, PutChat(w, e, r.conv, noted), w', d, op, None); } else { DevicesAlike(w, w, w', d, op, None); }
    } else {
      DevicesAlike(w, w, w', d, op, None);
    }
  }

  lemma SubmitWrites(env: Env, w: World, v: nat, o: Bytes, d: nat, op: Bytes)
    requires HasRow(w, d, op)
    ensures Becomes(w, DoDelete(env, w, Submit(v, o)), d, op, None)
  {
    if MaySubmit(w, v, o) {
      hide MaySubmit, DoSubmit, AcceptsOf, Becomes;
      SubmitTries(env, w, v, o);
      var e, dev := w.views[v].d, DeviceOf(w, v, o);
      var tried := dev.(attempts := dev.attempts[o := |AcceptsOf(dev, o)|]);
      SameWrites(w, e, tried, d, op);
      DevicesAlike(w, Put(w, e, tried), DoSubmit(env, w, v, o), d, op, None);
    }
  }

  lemma SubmitTries(env: Env, w: World, v: nat, o: Bytes)
    requires MaySubmit(w, v, o)
    ensures Sees(w, v, o)
    ensures var dev := DeviceOf(w, v, o); DoSubmit(env, w, v, o).devices == w.devices[w.views[v].d := dev.(attempts := dev.attempts[o := |AcceptsOf(dev, o)|])]
  {
    hide SignedIn, DeleteVerdict, CarryOut, AcceptsOf;
  }

  lemma OrderWrites(env: Env, w: World, c: Bytes, order: Order, d: nat, op: Bytes)
    requires HasRow(w, d, op)
    ensures Becomes(w, DoDelete(env, w, SubmitOrder(c, order)), d, op, None)
  {
    hide DeleteVerdict, CarryOut, AllKnown;
  }

  lemma DeleteWrites(env: Env, w: World, a: Action, d: nat, op: Bytes)
    requires HasRow(w, d, op) && Deleting(a)
    ensures Becomes(w, DoDelete(env, w, a), d, op, Written(w, a, d, op))
  {
    match a
    case Submit(v, o) => hide DoDelete, Becomes, MaySayYes, MaySayNo, Lapses, MayHear; SubmitWrites(env, w, v, o, d, op);
    case SubmitOrder(c, order) => hide DoDelete, Becomes, MaySayYes, MaySayNo, Lapses, MayHear; OrderWrites(env, w, c, order, d, op);
    case Check(v, o, reached, heard) => hide *; CheckWrites(env, w, v, o, reached, heard, d, op);
    case Hear(v) => hide *; HearWrites(env, w, v, d, op);
  }

  lemma YesWrites(env: Env, w: World, v: nat, o: Bytes, d: nat, op: Bytes)
    requires HasRow(w, d, op)
    ensures Becomes(w, DoAnswer(env, w, SayYes(v, o)), d, op, Written(w, SayYes(v, o), d, op))
  {
    if MaySayYes(w, v, o) {
      hide OrderInput, Becomes, Agree;
      var e, dev, r := w.views[v].d, DeviceOf(w, v, o), RowSeen(w, v, o);
      var key := dev.chats[r.conv].archive.value.key;
      var mine := Accept(env.sha(key), Signed(key, OrderInput(env.relay, o, r)));
      AgreeRows(dev, o, mine);
      SetWrites(w, e, o, Agree(dev, o, mine), Accepted, d, op);
      DevicesAlike(w, Put(w, e, Agree(dev, o, mine)), DoYes(env, w, v, o), d, op, Written(w, SayYes(v, o), d, op));
    }
  }

  lemma NoWrites(env: Env, w: World, v: nat, o: Bytes, d: nat, op: Bytes)
    requires HasRow(w, d, op)
    ensures Becomes(w, DoAnswer(env, w, SayNo(v, o)), d, op, Written(w, SayNo(v, o), d, op))
  {
    if MaySayNo(w, v, o) {
      hide Becomes;
      SetWrites(w, w.views[v].d, o, SetState(DeviceOf(w, v, o), o, Declined), Declined, d, op);
    }
  }

  lemma AskWrites(env: Env, w: World, e: nat, me: Bytes, c: Bytes, scope: int, o: Bytes, entries: seq<Bytes>, now: int, d: nat, op: Bytes)
    requires HasRow(w, d, op)
    ensures Becomes(w, DoAnswer(env, w, Ask(e, me, c, scope, o, entries, now)), d, op, None)
  {
    if e in w.devices && MayStart(w.devices[e], c, scope, o, entries, now) {
      hide ValidOrder, LiveChatRequest, Becomes;
      var dev := w.devices[e];
      var key := dev.chats[c].archive.value.key;
      var input := DeleteInput(env.relay, c, scope, o, now + REQUEST_LIFETIME, entries);
      var dev' := Start(dev, me, c, scope, o, entries, now, Accept(env.sha(key), Signed(key, input)));
      SameWrites(w, e, dev', d, op);
      DevicesAlike(w, Put(w, e, dev'), DoAsk(env, w, e, me, c, scope, o, entries, now), d, op, None);
    }
  }

  lemma RequestWrites(env: Env, w: World, e: nat, c: Bytes, sender: Bytes, addressed: bool, scope: int, o: Bytes, expires: int, entries: seq<Bytes>, now: int, d: nat, op: Bytes)
    requires HasRow(w, d, op)
    ensures Becomes(w, DoAnswer(env, w, Request(e, c, sender, addressed, scope, o, expires, entries, now)), d, op, None)
  {
    if e in w.devices {
      hide ValidOrder, Becomes;
      SameWrites(w, e, ReceiveRequest(w.devices[e], c, sender, addressed, scope, o, expires, entries, now), d, op);
    }
  }

  lemma AcceptanceWrites(env: Env, w: World, e: nat, c: Bytes, sender: Bytes, addressed: bool, o: Bytes, accept: Accept, d: nat, op: Bytes)
    requires HasRow(w, d, op)
    ensures Becomes(w, DoAnswer(env, w, Acceptance(e, c, sender, addressed, o, accept)), d, op, None)
  {
    if e in w.devices {
      hide Known, Becomes;
      SameWrites(w, e, ReceiveAccept(w.devices[e], c, sender, addressed, o, accept), d, op);
    }
  }

  lemma AnswerWrites(env: Env, w: World, a: Action, d: nat, op: Bytes)
    requires HasRow(w, d, op) && Answering(a)
    ensures Becomes(w, DoAnswer(env, w, a), d, op, Written(w, a, d, op))
  {
    match a
    case Ask(e, me, c, scope, o, entries, now) => hide DoAnswer, Becomes; AskWrites(env, w, e, me, c, scope, o, entries, now, d, op);
    case SayYes(v, o) => hide *; YesWrites(env, w, v, o, d, op);
    case SayNo(v, o) => hide *; NoWrites(env, w, v, o, d, op);
    case Request(e, c, sender, addressed, scope, o, expires, entries, now) =>
      hide DoAnswer, Becomes;
      RequestWrites(env, w, e, c, sender, addressed, scope, o, expires, entries, now, d, op);
    case Acceptance(e, c, sender, addressed, o, accept) => hide DoAnswer, Becomes; AcceptanceWrites(env, w, e, c, sender, addressed, o, accept, d, op);
  }

  lemma LocalWrites(w: World, a: Action, d: nat, op: Bytes)
    requires HasRow(w, d, op)
    ensures Becomes(w, DoLocal(w, a), d, op, None)
  {
    if a.Restart? { hide DoLocal, Becomes; RestartWrites(w, a.d, d, op); }
    else if a.AddMessage? || a.Place? { hide DoLocal, Becomes; MessageWrites(w, a, d, op); }
    else { hide HasChat; }
  }

  lemma RestartWrites(w: World, e: nat, d: nat, op: Bytes)
    requires HasRow(w, d, op)
    ensures Becomes(w, DoLocal(w, Restart(e)), d, op, None)
  {
    if e in w.devices {
      hide Becomes;
      var dev := w.devices[e].(attempts := map[]);
      SameWrites(w, e, dev, d, op);
      DevicesAlike(w, Put(w, e, dev), DoLocal(w, Restart(e)), d, op, None);
    }
  }

  lemma MessageWrites(w: World, a: Action, d: nat, op: Bytes)
    requires HasRow(w, d, op) && (a.AddMessage? || a.Place?)
    ensures Becomes(w, DoLocal(w, a), d, op, None)
  {
    if HasChat(w, a.d, a.c) {
      var chat := w.devices[a.d].chats[a.c];
      hide Becomes;
      SameWrites(w, a.d, w.devices[a.d], d, op);
      if a.AddMessage? { ChatWrites(w, a.d, a.c, chat.(messages := chat.messages[a.m := true]), d, op); }
      else { ChatWrites(w, a.d, a.c, chat.(placed := chat.placed[a.m := a.n]), d, op); }
    }
  }

  lemma ChatWrites(w: World, e: nat, c: Bytes, chat: Chat, d: nat, op: Bytes)
    requires HasRow(w, d, op) && e in w.devices
    ensures Becomes(w, PutChat(w, e, c, chat), d, op, None)
  {
  }

  lemma ArchiveWrites(env: Env, w: World, a: Action, d: nat, op: Bytes)
    requires HasRow(w, d, op)
    ensures Becomes(w, DoArchive(env, w, a), d, op, None)
  {
    hide SignedIn, MayJoin, Unheard, Caught, MemberOf;
  }

  lemma RestWrites(env: Env, w: World, a: Action, d: nat, op: Bytes)
    requires HasRow(w, d, op)
    ensures Becomes(w, DoSign(env, w, a), d, op, None) && Becomes(w, DoRelay(w, a), d, op, None)
  {
    hide MayRegister, Unheard, Fits;
  }

  // What any step of anyone does to a row: nothing, or it writes a state that a call decided on by its copy.
  lemma RowAfterStep(env: Env, w: World, a: Action, d: nat, op: Bytes)
    requires HasRow(w, d, op)
    ensures Becomes(w, Do(env, w, a), d, op, Written(w, a, d, op))
  {
    hide DoDelete, DoAnswer, DoLocal, DoArchive, DoSign, DoRelay, MaySayYes, MaySayNo, Lapses, MayHear, Becomes;
    if Deleting(a) { DeleteWrites(env, w, a, d, op); }
    else if Answering(a) { AnswerWrites(env, w, a, d, op); }
    else if Local(a) { LocalWrites(w, a, d, op); }
    else if Archiving(a) { ArchiveWrites(env, w, a, d, op); }
    else { RestWrites(env, w, a, d, op); }
  }

  // ---- Final answers ----

  // The step writes over the row's state with another.
  predicate Overwrites(w: World, a: Action, d: nat, op: Bytes) {
    HasRow(w, d, op) && Written(w, a, d, op).Some? && Written(w, a, d, op).value != w.devices[d].rows[op].state
  }

  // Exactly when a final state changes: a call writes another state, and it goes by a copy in which the row was not yet
  // final, so the row was answered, or carried out, or had expired, after the call read it.
  lemma FinalChanges(env: Env, w: World, a: Action, d: nat, op: Bytes)
    requires Inv(env, w) && HasRow(w, d, op) && Final(w.devices[d].rows[op].state)
    ensures var w' := Do(env, w, a); HasRow(w', d, op) && (w'.devices[d].rows[op] != w.devices[d].rows[op] <==> Overwrites(w, a, d, op))
    ensures Overwrites(w, a, d, op) ==> !Final(Copy(w, a, d, op).state) && SameOrder(Copy(w, a, d, op), w.devices[d].rows[op])
  {
    hide Do, Inv;
    RowAfterStep(env, w, a, d, op);
    if Overwrites(w, a, d, op) {
      if a.Hear? { ReplyIsOk(env, w, a.v); } else { SeenSame(env, w, a.v, op); }
    }
  }

  predicate EverOverwritten(env: Env, w: World, actions: seq<Action>, d: nat, op: Bytes)
    decreases |actions|
  {
    actions != [] && (Overwrites(w, actions[0], d, op) || EverOverwritten(env, Do(env, w, actions[0]), actions[1..], d, op))
  }

  // Over any run, a final answer that no such call writes over stays.
  lemma {:induction false} FinalStays(env: Env, w: World, actions: seq<Action>, d: nat, op: Bytes)
    requires EnvOk(env) && Inv(env, w) && HasRow(w, d, op) && Final(w.devices[d].rows[op].state) && !EverOverwritten(env, w, actions, d, op)
    ensures var w' := Run(env, w, actions); HasRow(w', d, op) && w'.devices[d].rows[op] == w.devices[d].rows[op]
    decreases |actions|
  {
    if actions != [] {
      hide EnvOk, Inv, Do, Overwrites, DevicesStep;
      StepKeeps(env, w, actions[0]);
      FinalChanges(env, w, actions[0], d, op);
      FinalStays(env, Do(env, w, actions[0]), actions[1..], d, op);
    }
  }

  // ---- Calls that are not interrupted ----

  // Whatever the step writes, the row is still as its call read it.
  predicate Fresh(w: World, a: Action, d: nat, op: Bytes) {
    HasRow(w, d, op) && Written(w, a, d, op).Some? ==> Copy(w, a, d, op) == w.devices[d].rows[op]
  }

  // Done is reached only through Accepted, and Declined, Done and Expired are final.
  predicate InOrder(r: Row, r': Row) {
    && SameOrder(r, r')
    && (r'.state == r.state || (r.state == Pending && r'.state != Done) || (r.state == Accepted && (r'.state == Done || r'.state == Expired)))
  }

  // A step of a call that was not overtaken moves a row only in order.
  lemma FreshInOrder(env: Env, w: World, a: Action, d: nat, op: Bytes)
    requires Inv(env, w) && HasRow(w, d, op) && Fresh(w, a, d, op)
    ensures var w' := Do(env, w, a); HasRow(w', d, op) && InOrder(w.devices[d].rows[op], w'.devices[d].rows[op])
  {
    hide Do, Inv;
    RowAfterStep(env, w, a, d, op);
    if Written(w, a, d, op).Some? && a.Hear? { ReplyIsOk(env, w, a.v); }
  }

  predicate AllFresh(env: Env, w: World, actions: seq<Action>, d: nat, op: Bytes)
    decreases |actions|
  {
    actions != [] ==> Fresh(w, actions[0], d, op) && AllFresh(env, Do(env, w, actions[0]), actions[1..], d, op)
  }

  // So over any run in which no call on this row is overtaken, a final answer stays.
  lemma {:induction false} FreshFinal(env: Env, w: World, actions: seq<Action>, d: nat, op: Bytes)
    requires EnvOk(env) && Inv(env, w) && HasRow(w, d, op) && Final(w.devices[d].rows[op].state) && AllFresh(env, w, actions, d, op)
    ensures var w' := Run(env, w, actions); HasRow(w', d, op) && w'.devices[d].rows[op] == w.devices[d].rows[op]
    decreases |actions|
  {
    if actions != [] {
      hide EnvOk, Inv, Do, Fresh, DevicesStep;
      StepKeeps(env, w, actions[0]);
      FreshInOrder(env, w, actions[0], d, op);
      FreshFinal(env, Do(env, w, actions[0]), actions[1..], d, op);
    }
  }

  // ---- Having a say ----

  // Every registered key was registered when each redacted entry was redacted.
  predicate HeardIn(w: World, c: Bytes)
    requires c in w.archives
  {
    forall i, m :: 0 <= i < |w.archives[c].log| && w.archives[c].log[i].tombstone && m in w.archives[c].members ==>
      Spoke(w.executed, c, w.archives[c].log[i].hash, m)
  }

  predicate AllHeard(w: World) {
    forall c :: c in w.archives ==> HeardIn(w, c)
  }

  // The step registers a key that had no say in something already redacted.
  predicate LetsInUnheard(env: Env, w: World, a: Action) {
    || (a.Register? && MayRegister(w, a.c, a.member) && Unheard(w, a.c, a.member))
    || (a.Join? && MayJoin(env, w, a.d, a.c, a.tokenHash) && Unheard(w, a.c, MemberOf(env, w.devices[a.d].chats[a.c].archive.value.key)))
  }

  lemma HeardFrame(w: World, w': World, c: Bytes)
    requires c in w.archives && c in w'.archives && HeardIn(w, c) && w.executed <= w'.executed
    requires w'.archives[c].log == w.archives[c].log && w'.archives[c].members == w.archives[c].members
    ensures HeardIn(w', c)
  {
    hide Spoke;
    var log := w.archives[c].log;
    forall i, m | 0 <= i < |log| && log[i].tombstone && m in w.archives[c].members ensures Spoke(w'.executed, c, log[i].hash, m) {
      SpokeMore(w.executed, w'.executed, c, log[i].hash, m);
    }
  }

  lemma SameArchivesHeard(w: World, w': World)
    requires AllHeard(w) && w'.archives == w.archives && w.executed <= w'.executed
    ensures AllHeard(w')
  {
    hide HeardIn;
    forall c | c in w'.archives ensures HeardIn(w', c) { HeardFrame(w, w', c); }
  }

  lemma ExecuteHeard(env: Env, w: World, c: Bytes, o: Order)
    requires AllHeard(w) && c in w.archives && (o.scope == SCOPE_CHAT || o.scope == SCOPE_ENTRIES)
    ensures AllHeard(Execute(env, w, c, o))
  {
    hide HeardIn;
    var w' := Execute(env, w, c, o);
    forall b | b in w'.archives ensures HeardIn(w', b) {
      if b == c { RedactedHeard(env, w, c, o); } else { HeardFrame(w, w', b); }
    }
  }

  lemma RedactedHeard(env: Env, w: World, c: Bytes, o: Order)
    requires c in w.archives && HeardIn(w, c) && o.scope == SCOPE_ENTRIES
    ensures HeardIn(Execute(env, w, c, o), c)
  {
    hide Spoke;
    var w' := Execute(env, w, c, o);
    var log, log' := w.archives[c].log, w'.archives[c].log;
    forall i, m | 0 <= i < |log'| && log'[i].tombstone && m in w.archives[c].members ensures Spoke(w'.executed, c, log'[i].hash, m) {
      if log[i].tombstone { SpokeMore(w.executed, w'.executed, c, log[i].hash, m); } else { JustSpoke(env, w, c, o, log[i].hash, m); }
    }
  }

  lemma JustSpoke(env: Env, w: World, c: Bytes, o: Order, hash: Bytes, m: Member)
    requires c in w.archives && o.scope == SCOPE_ENTRIES && hash in o.entries && m in w.archives[c].members
    ensures Spoke(Execute(env, w, c, o).executed, c, hash, m)
  {
    var x := Execute(env, w, c, o).executed[|w.executed|];
    assert x in Execute(env, w, c, o).executed && CoversEntry(x, c, hash) && m in x.members;
  }

  lemma RegisterHeard(w: World, c: Bytes, m: Member)
    requires AllHeard(w) && c in w.archives
    ensures AllHeard(Registered(w, c, m)) <==> !Unheard(w, c, m)
  {
    hide Spoke;
    var w' := Registered(w, c, m);
    var log := w.archives[c].log;
    assert HeardIn(w, c);
    if Unheard(w, c, m) {
      var i :| 0 <= i < |log| && log[i].tombstone && !Spoke(w.executed, c, log[i].hash, m);
      assert m in w'.archives[c].members && !Spoke(w'.executed, c, w'.archives[c].log[i].hash, m);
      assert !HeardIn(w', c);
    } else {
      forall b | b in w'.archives ensures HeardIn(w', b) { if b != c { HeardFrame(w, w', b); } }
    }
  }

  // Everything the relay holds is as it was.
  predicate RelaySame(w: World, w': World) {
    w'.archives == w.archives && w'.executed == w.executed && w'.late == w.late && w'.clock == w.clock
  }

  lemma CheckSame(env: Env, w: World, v: nat, op: Bytes, reached: bool, heard: set<Bytes>)
    ensures RelaySame(w, DoDelete(env, w, Check(v, op, reached, heard)))
  {
    hide SignedIn, IsGone, Noted, SetState;
  }

  lemma HearSame(env: Env, w: World, v: nat)
    ensures RelaySame(w, DoDelete(env, w, Hear(v)))
  {
    hide Apply, SetState;
  }

  lemma DeleteHeard(env: Env, w: World, a: Action)
    requires AllHeard(w) && Deleting(a)
    ensures AllHeard(DoDelete(env, w, a))
  {
    hide AllHeard, DeleteVerdict, AllKnown, MaySubmit, DoSubmit, DoCheck, DoHear;
    match a
    case SubmitOrder(c, order) =>
      if c in w.archives && DeleteVerdict(env.relay, w.archives, c, order, w.clock) == CarriedOut { VerdictDecodes(env, w, c, order); ExecuteHeard(env, w, c, order); }
    case Submit(v, op) => if MaySubmit(w, v, op) { SubmitHeard(env, w, v, op); }
    case Check(v, op, reached, heard) => CheckSame(env, w, v, op, reached, heard); SameArchivesHeard(w, DoDelete(env, w, a));
    case Hear(v) => HearSame(env, w, v); SameArchivesHeard(w, DoDelete(env, w, a));
  }

  lemma SubmitHeard(env: Env, w: World, v: nat, op: Bytes)
    requires AllHeard(w) && MaySubmit(w, v, op)
    ensures AllHeard(DoSubmit(env, w, v, op))
  {
    hide AllHeard, DeleteVerdict, CarryOut, AcceptsOf;
    var w', d, r, order := DoSubmit(env, w, v, op), w.views[v].d, RowSeen(w, v, op), OrderOf(DeviceOf(w, v, op), op, RowSeen(w, v, op));
    if SignedIn(env, w, d, r.conv) && DeleteVerdict(env.relay, w.archives, r.conv, order, w.clock) == CarriedOut {
      VerdictDecodes(env, w, r.conv, order);
      ExecuteHeard(env, w, r.conv, order);
      SameArchivesHeard(Execute(env, w, r.conv, order), w');
    } else {
      SameArchivesHeard(w, w');
    }
  }

  lemma RelayHeard(w: World, a: Action)
    requires AllHeard(w) && !a.Register?
    ensures AllHeard(DoRelay(w, a))
  {
    hide HeardIn;
    var w' := DoRelay(w, a);
    forall c | c in w'.archives ensures HeardIn(w', c) {
      if c in w.archives && w'.archives[c] == w.archives[c] { HeardFrame(w, w', c); } else { NothingNewRedacted(w, a, c); }
    }
  }

  lemma NothingNewRedacted(w: World, a: Action, c: Bytes)
    requires AllHeard(w) && !a.Register? && c in DoRelay(w, a).archives && !(c in w.archives && DoRelay(w, a).archives[c] == w.archives[c])
    ensures HeardIn(DoRelay(w, a), c)
  {
    hide Spoke;
    if a.Append? && c in w.archives { assert HeardIn(w, c); }
  }

  lemma JoinHeard(env: Env, w: World, d: nat, c: Bytes, tokenHash: Bytes)
    requires AllHeard(w) && HasArchive(w, d, c) && c in w.archives
    ensures AllHeard(DoJoin(env, w, d, c, tokenHash)) <==> !Unheard(w, c, MemberOf(env, w.devices[d].chats[c].archive.value.key))
  {
    hide AllHeard, Unheard, MemberOf;
    var chat := w.devices[d].chats[c];
    var key := chat.archive.value.key;
    RegisterHeard(w, c, MemberOf(env, key));
    JoinInSteps(env, w, d, c, tokenHash);
    var w1, w' := Registered(w, c, MemberOf(env, key)), DoJoin(env, w, d, c, tokenHash);
    if AllHeard(w1) { SameArchivesHeard(w1, w'); }
    if AllHeard(w') { SameArchivesHeard(w', w1); }
  }

  lemma ArchiveHeard(env: Env, w: World, a: Action)
    requires AllHeard(w) && Archiving(a)
    ensures AllHeard(DoArchive(env, w, a)) <==> !LetsInUnheard(env, w, a)
  {
    hide AllHeard, Unheard, MemberOf, MayJoin, SignedIn, Caught, DoJoin;
    if a.Join? {
      if MayJoin(env, w, a.d, a.c, a.tokenHash) { JoinParts(env, w, a.d, a.c, a.tokenHash); JoinHeard(env, w, a.d, a.c, a.tokenHash); }
    } else {
      SameArchivesHeard(w, DoArchive(env, w, a));
    }
  }

  lemma JoinParts(env: Env, w: World, d: nat, c: Bytes, tokenHash: Bytes)
    requires MayJoin(env, w, d, c, tokenHash)
    ensures HasArchive(w, d, c) && c in w.archives
  {
  }

  // Exactly when a step of anyone ends that everyone registered has had a say: it lets in a key that had none.
  lemma HeardStep(env: Env, w: World, a: Action)
    requires AllHeard(w)
    ensures AllHeard(Do(env, w, a)) <==> !LetsInUnheard(env, w, a)
  {
    hide AllHeard, Unheard, MemberOf, MayJoin, MayRegister, DoDelete, DoAnswer, DoLocal, DoArchive, DoSign;
    if Deleting(a) { DeleteHeard(env, w, a); }
    else if Answering(a) || Local(a) || Signing(a) { RestSame(env, w, a); SameArchivesHeard(w, Do(env, w, a)); }
    else if Archiving(a) { ArchiveHeard(env, w, a); }
    else if a.Register? { if MayRegister(w, a.c, a.member) { IsThere(w, a.c, a.member); RegisterHeard(w, a.c, a.member); } }
    else { hide DoRelay; RelayHeard(w, a); }
  }

  lemma RestSame(env: Env, w: World, a: Action)
    requires Answering(a) || Local(a) || Signing(a)
    ensures RelaySame(w, Do(env, w, a))
  {
    hide DoAnswer, DoLocal, DoSign;
    if Answering(a) { AnswerSame(env, w, a); } else if Local(a) { LocalSame(w, a); } else { SignSame(env, w, a); }
  }

  lemma AnswerSame(env: Env, w: World, a: Action)
    ensures RelaySame(w, DoAnswer(env, w, a))
  {
    hide Known, MayStart, MaySayYes, MaySayNo, ReceiveRequest, ReceiveAccept, SetState, AddAccept, Agree, Start;
  }

  lemma LocalSame(w: World, a: Action)
    ensures RelaySame(w, DoLocal(w, a))
  {
  }

  lemma SignSame(env: Env, w: World, a: Action)
    ensures RelaySame(w, DoSign(env, w, a))
  {
    hide Fits;
  }

  // The keys noted as late are exactly those let in that way.
  lemma LateStep(env: Env, w: World, a: Action)
    ensures var late := Do(env, w, a).late; if LetsInUnheard(env, w, a) then late != {} else late == w.late
  {
    hide Unheard, MemberOf, MayJoin, MayRegister, DoDelete, DoAnswer, DoLocal, DoSign, DoArchive;
    if Deleting(a) { DeleteLate(env, w, a); }
    else if Answering(a) || Local(a) || Signing(a) { RestSame(env, w, a); }
    else if Archiving(a) { ArchiveLate(env, w, a); }
    else if a.Register? && MayRegister(w, a.c, a.member) {
      IsThere(w, a.c, a.member);
      if Unheard(w, a.c, a.member) { assert (a.c, a.member) in Do(env, w, a).late; }
    }
  }

  lemma DeleteLate(env: Env, w: World, a: Action)
    ensures DoDelete(env, w, a).late == w.late
  {
    hide AllKnown, DeleteVerdict, CarryOut, MaySubmit, DoSubmit, DoCheck, DoHear;
    match a
    case Submit(v, op) => if MaySubmit(w, v, op) { SubmitLate(env, w, v, op); }
    case Check(v, op, reached, heard) => CheckSame(env, w, v, op, reached, heard);
    case Hear(v) => HearSame(env, w, v);
    case _ =>
  }

  lemma SubmitLate(env: Env, w: World, v: nat, op: Bytes)
    requires MaySubmit(w, v, op)
    ensures DoSubmit(env, w, v, op).late == w.late
  {
    hide SignedIn, DeleteVerdict, CarryOut, AcceptsOf;
  }

  lemma ArchiveLate(env: Env, w: World, a: Action)
    requires Archiving(a)
    ensures var late := DoArchive(env, w, a).late; if LetsInUnheard(env, w, a) then late != {} else late == w.late
  {
    hide Unheard, MemberOf, MayJoin, SignedIn, Caught, DoJoin;
    if a.Join? && MayJoin(env, w, a.d, a.c, a.tokenHash) {
      JoinParts(env, w, a.d, a.c, a.tokenHash);
      JoinInSteps(env, w, a.d, a.c, a.tokenHash);
      var m := MemberOf(env, w.devices[a.d].chats[a.c].archive.value.key);
      if Unheard(w, a.c, m) { assert (a.c, m) in DoJoin(env, w, a.d, a.c, a.tokenHash).late; }
    }
  }

  predicate EverLetsIn(env: Env, w: World, actions: seq<Action>)
    decreases |actions|
  {
    actions != [] && (LetsInUnheard(env, w, actions[0]) || EverLetsIn(env, Do(env, w, actions[0]), actions[1..]))
  }

  lemma {:induction false} LateGrows(env: Env, w: World, actions: seq<Action>)
    requires EnvOk(env) && w.late != {}
    ensures Run(env, w, actions).late != {}
    decreases |actions|
  {
    if actions != [] {
      hide Do, LetsInUnheard, EnvOk;
      LateStep(env, w, actions[0]);
      LateGrows(env, Do(env, w, actions[0]), actions[1..]);
    }
  }

  // Over any run, nobody is late exactly when nobody was ever let in without a say; and then everyone registered has had
  // a say in everything redacted.
  lemma {:induction false} LateExactly(env: Env, w: World, actions: seq<Action>)
    requires EnvOk(env) && Inv(env, w)
    ensures Run(env, w, actions).late == {} <==> w.late == {} && !EverLetsIn(env, w, actions)
    ensures Run(env, w, actions).late == {} ==> AllHeard(Run(env, w, actions))
    decreases |actions|
  {
    hide Do, LetsInUnheard, EnvOk, Inv, AllHeard, DevicesStep;
    if w.late != {} {
      LateGrows(env, w, actions);
    } else if actions == [] {
      NobodyLate(env, w);
    } else {
      LateStep(env, w, actions[0]);
      StepKeeps(env, w, actions[0]);
      LateExactly(env, Do(env, w, actions[0]), actions[1..]);
    }
  }

  lemma NobodyLate(env: Env, w: World)
    requires Inv(env, w) && w.late == {}
    ensures AllHeard(w)
  {
    hide Inv, Spoke, EntryDeleted;
    forall c | c in w.archives ensures HeardIn(w, c) {
      ArchiveIsOk(env, w, c);
      forall i, m | 0 <= i < |w.archives[c].log| && w.archives[c].log[i].tombstone && m in w.archives[c].members
        ensures Spoke(w.executed, c, w.archives[c].log[i].hash, m)
      {
        assert TombstoneOk(w.archives[c].members, w.executed, w.late, c, w.archives[c].log[i].hash);
      }
    }
  }

  // ---- A clock that does not go back ----

  // Where something has been redacted, nobody can register any more.
  predicate Closed(w: World) {
    forall c, i :: c in w.archives && 0 <= i < |w.archives[c].log| && w.archives[c].log[i].tombstone ==> !Registering(w.archives[c], w.clock)
  }

  predicate Forwards(w: World, a: Action) {
    a.Tick? ==> w.clock <= a.now
  }

  lemma ClosedAlike(w: World, w': World)
    requires Closed(w) && w'.archives == w.archives && w'.clock == w.clock
    ensures Closed(w')
  {
  }

  lemma ExecuteClosed(env: Env, w: World, c: Bytes, o: Order)
    requires Closed(w) && c in w.archives && DeleteVerdict(env.relay, w.archives, c, o, w.clock) == CarriedOut
    ensures Closed(Execute(env, w, c, o))
  {
    hide Decodes, MembersVerdict, InLog;
    var w' := Execute(env, w, c, o);
    forall b, i | b in w'.archives && 0 <= i < |w'.archives[b].log| && w'.archives[b].log[i].tombstone ensures !Registering(w'.archives[b], w'.clock) {
      if b != c { assert w'.archives[b] == w.archives[b]; }
    }
  }

  lemma DeleteClosed(env: Env, w: World, a: Action)
    requires Closed(w) && Deleting(a)
    ensures Closed(DoDelete(env, w, a))
  {
    hide Closed, DeleteVerdict, AllKnown, MaySubmit, DoSubmit, DoCheck, DoHear;
    match a
    case SubmitOrder(c, order) =>
      if c in w.archives && DeleteVerdict(env.relay, w.archives, c, order, w.clock) == CarriedOut { ExecuteClosed(env, w, c, order); }
    case Submit(v, op) => if MaySubmit(w, v, op) { SubmitClosed(env, w, v, op); }
    case Check(v, op, reached, heard) => CheckSame(env, w, v, op, reached, heard); ClosedAlike(w, DoDelete(env, w, a));
    case Hear(v) => HearSame(env, w, v); ClosedAlike(w, DoDelete(env, w, a));
  }

  lemma SubmitClosed(env: Env, w: World, v: nat, op: Bytes)
    requires Closed(w) && MaySubmit(w, v, op)
    ensures Closed(DoSubmit(env, w, v, op))
  {
    hide Closed, DeleteVerdict, CarryOut, AcceptsOf;
    var w', d, r, order := DoSubmit(env, w, v, op), w.views[v].d, RowSeen(w, v, op), OrderOf(DeviceOf(w, v, op), op, RowSeen(w, v, op));
    if SignedIn(env, w, d, r.conv) && DeleteVerdict(env.relay, w.archives, r.conv, order, w.clock) == CarriedOut {
      ExecuteClosed(env, w, r.conv, order);
      ClosedAlike(Execute(env, w, r.conv, order), w');
    } else {
      ClosedAlike(w, w');
    }
  }

  lemma RegisterClosed(w: World, c: Bytes, m: Member)
    requires Closed(w) && MayRegister(w, c, m)
    ensures Closed(Registered(w, c, m)) && !Unheard(w, c, m)
  {
    hide Spoke;
  }

  lemma RelayClosed(w: World, a: Action)
    requires Closed(w) && Forwards(w, a)
    ensures Closed(DoRelay(w, a)) && !(a.Register? && MayRegister(w, a.c, a.member) && Unheard(w, a.c, a.member))
  {
    hide Unheard, MayRegister;
    if a.Register? && MayRegister(w, a.c, a.member) { hide Closed; IsThere(w, a.c, a.member); RegisterClosed(w, a.c, a.member); }
  }

  lemma ArchiveClosed(env: Env, w: World, a: Action)
    requires Closed(w) && Archiving(a)
    ensures Closed(DoArchive(env, w, a)) && !LetsInUnheard(env, w, a)
  {
    hide Closed, Unheard, MemberOf, SignedIn, Caught, DoJoin;
    if a.Join? && MayJoin(env, w, a.d, a.c, a.tokenHash) {
      var m := MemberOf(env, w.devices[a.d].chats[a.c].archive.value.key);
      RegisterClosed(w, a.c, m);
      JoinInSteps(env, w, a.d, a.c, a.tokenHash);
      ClosedAlike(Registered(w, a.c, m), DoJoin(env, w, a.d, a.c, a.tokenHash));
    } else {
      ClosedAlike(w, DoArchive(env, w, a));
    }
  }

  lemma ClosedStep(env: Env, w: World, a: Action)
    requires Closed(w) && Forwards(w, a)
    ensures Closed(Do(env, w, a)) && !LetsInUnheard(env, w, a)
  {
    hide Closed, Unheard, MemberOf, MayJoin, MayRegister, DoDelete, DoAnswer, DoLocal, DoArchive, DoSign, DoRelay;
    if Deleting(a) { DeleteClosed(env, w, a); }
    else if Answering(a) || Local(a) || Signing(a) { RestSame(env, w, a); ClosedAlike(w, Do(env, w, a)); }
    else if Archiving(a) { ArchiveClosed(env, w, a); }
    else { RelayClosed(w, a); }
  }

  predicate AllForwards(env: Env, w: World, actions: seq<Action>)
    decreases |actions|
  {
    actions != [] ==> Forwards(w, actions[0]) && AllForwards(env, Do(env, w, actions[0]), actions[1..])
  }

  // As long as the relay's clock does not go back, nobody is let in without a say.
  lemma {:induction false} ForwardsNobodyLate(env: Env, w: World, actions: seq<Action>)
    requires Closed(w) && AllForwards(env, w, actions)
    ensures !EverLetsIn(env, w, actions)
    decreases |actions|
  {
    if actions != [] {
      hide Do, LetsInUnheard, Closed;
      ClosedStep(env, w, actions[0]);
      ForwardsNobodyLate(env, Do(env, w, actions[0]), actions[1..]);
    }
  }

  // So from nothing, everyone registered has had a say in everything redacted.
  lemma ForwardsAllHeard(env: Env, actions: seq<Action>)
    requires EnvOk(env) && AllForwards(env, Nothing(), actions)
    ensures Run(env, Nothing(), actions).late == {} && AllHeard(Run(env, Nothing(), actions))
  {
    assert Closed(Nothing()) && Inv(env, Nothing());
    hide Run, AllForwards, AllHeard, EnvOk, EverLetsIn;
    ForwardsNobodyLate(env, Nothing(), actions);
    LateExactly(env, Nothing(), actions);
  }
}
