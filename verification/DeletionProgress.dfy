/**
 What agreement gets done: DeletionProtocol says that nothing is deleted without it, this module that an acceptance that
 arrives is held, that the relay carries out exactly the orders it should, and that when everyone agrees the chat, or the
 named entries, are deleted at the relay and on every device.
 */
module DeletionProgress {
  import opened Wire
  import opened SigningInputs
  import opened Deletion
  import opened DeletionProtocol

  // ---- An acceptance that arrives ----

  // It is from a member, for a row of that chat that is neither done nor expired.
  predicate Welcome(dev: Device, c: Bytes, sender: Bytes, op: Bytes) {
    && c in dev.chats && sender in dev.chats[c].others && op in dev.rows && dev.rows[op].conv == c
    && (dev.rows[op].state == Pending || dev.rows[op].state == Accepted || dev.rows[op].state == Declined)
  }

  predicate HasFrom(accepts: seq<Accept>, keyHash: Bytes) {
    exists i :: 0 <= i < |accepts| && accepts[i].keyHash == keyHash
  }

  // Exactly then it is held, after those held before, unless one of the same key is; nothing else changes.
  lemma AcceptanceHeld(env: Env, w: World, d: nat, c: Bytes, sender: Bytes, addressed: bool, op: Bytes, accept: Accept)
    requires d in w.devices && Known(w.signed, accept.signature)
    ensures var w', dev := Do(env, w, Acceptance(d, c, sender, addressed, op, accept)), w.devices[d];
            && d in w'.devices && w' == w.(devices := w.devices[d := w'.devices[d]]) && w'.devices[d].(accepts := dev.accepts) == dev
            && (forall o :: o != op ==> AcceptsOf(w'.devices[d], o) == AcceptsOf(dev, o))
            && AcceptsOf(w'.devices[d], op) ==
                 AcceptsOf(dev, op) + if addressed && Welcome(dev, c, sender, op) && !HasFrom(AcceptsOf(dev, op), accept.keyHash) then [accept] else []
  {
    hide Known;
    var dev := w.devices[d];
    assert AcceptsOf(dev, op) + [] == AcceptsOf(dev, op);
  }

  // ---- Asking, being asked, and answering ----

  // A device's user may ask: it has joined the archive, the order is well formed and new, and for a whole chat no request of
  // that kind is still open there.
  lemma AsksExactly(env: Env, w: World, d: nat, me: Bytes, c: Bytes, scope: int, op: Bytes, entries: seq<Bytes>, now: int)
    requires d in w.devices && op !in w.devices[d].rows && |c| == ARCHIVE_ID_BYTES && 0 <= now < TWO64 / 4
    ensures var w', dev := Do(env, w, Ask(d, me, c, scope, op, entries, now)), w.devices[d];
            && d in w'.devices
            && (op in w'.devices[d].rows <==>
                  && JoinedIn(dev, c) && ValidOrder(scope, op, entries)
                  && !(scope == SCOPE_CHAT && exists o :: o in dev.rows && dev.rows[o].conv == c && dev.rows[o].scope == SCOPE_CHAT && now < dev.rows[o].expires
                                                         && (dev.rows[o].state == Pending || dev.rows[o].state == Accepted)))
            && (op in w'.devices[d].rows ==> w'.devices[d].rows[op] == Row(c, scope, now + REQUEST_LIFETIME, me, entries, Accepted) && (d, op) in w'.said)
  {
    hide ValidOrder, Start;
    if MayStart(w.devices[d], c, scope, op, entries, now) {
      var key := w.devices[d].chats[c].archive.value.key;
      var input := DeleteInput(env.relay, c, scope, op, now + REQUEST_LIFETIME, entries);
      StartRow(w.devices[d], me, c, scope, op, entries, now, Accept(env.sha(key), Signed(key, input)));
    }
  }

  lemma StartRow(dev: Device, me: Bytes, c: Bytes, scope: int, op: Bytes, entries: seq<Bytes>, now: int, a: Accept)
    ensures Start(dev, me, c, scope, op, entries, now, a).rows == dev.rows[op := Row(c, scope, now + REQUEST_LIFETIME, me, entries, Accepted)]
  {
  }

  // A request makes a row exactly when it comes from a member and for the members, is well formed, new and live, does not
  // claim to last longer than one may, and the chat has an archive; the row waits for an answer.
  lemma AskedExactly(env: Env, w: World, d: nat, c: Bytes, sender: Bytes, addressed: bool, scope: int, op: Bytes, expires: int, entries: seq<Bytes>, now: int)
    requires d in w.devices && op !in w.devices[d].rows && |c| == ARCHIVE_ID_BYTES && 0 <= now && 0 <= expires < TWO64
    ensures var w', dev := Do(env, w, Request(d, c, sender, addressed, scope, op, expires, entries, now)), w.devices[d];
            && d in w'.devices
            && (op in w'.devices[d].rows <==>
                  && c in dev.chats && sender in dev.chats[c].others && addressed && dev.chats[c].archive.Some? && ValidOrder(scope, op, entries)
                  && now < Int64(expires) && Int64(expires) - now <= REQUEST_LIFETIME + REQUEST_SLACK)
            && (op in w'.devices[d].rows ==> w'.devices[d].rows[op] == Row(c, scope, Int64(expires), sender, entries, Pending))
  {
    hide ValidOrder;
  }

  // By the copy a call has read, a yes counts exactly for a row that waits, is live, and whose archive the device has
  // joined, and leaves the user's signature of this order among the acceptances.
  lemma YesExactly(env: Env, w: World, v: nat, op: Bytes)
    requires Sees(w, v, op) && DeviceOf(w, v, op).rows[op].state == Pending
    ensures var d, dev, r, w' := w.views[v].d, DeviceOf(w, v, op), RowSeen(w, v, op), Do(env, w, SayYes(v, op));
            && d in w'.devices && op in w'.devices[d].rows
            && (w'.devices[d].rows[op].state == Accepted <==> r.state == Pending && w.views[v].wall < r.expires && JoinedIn(dev, r.conv))
            && (w'.devices[d].rows[op].state == Accepted ==>
                  var key := dev.chats[r.conv].archive.value.key;
                  && (key, OrderInput(env.relay, op, r)) in w'.signed && (d, op) in w'.said
                  && HasFrom(AcceptsOf(w'.devices[d], op), env.sha(key)))
  {
    hide OrderInput, Agree, AcceptsOf, HasFrom, DoDelete, DoLocal, DoArchive, DoSign, DoRelay, MayStart, ReceiveRequest, ReceiveAccept, Known;
    var d, dev, r := w.views[v].d, DeviceOf(w, v, op), RowSeen(w, v, op);
    if MaySayYes(w, v, op) {
      var key := dev.chats[r.conv].archive.value.key;
      Agreeing(dev, op, Accept(env.sha(key), Signed(key, OrderInput(env.relay, op, r))));
    }
  }

  lemma Agreeing(dev: Device, op: Bytes, a: Accept)
    requires op in dev.rows
    ensures var dev' := Agree(dev, op, a); op in dev'.rows && dev'.rows[op] == dev.rows[op].(state := Accepted) && HasFrom(AcceptsOf(dev', op), a.keyHash)
  {
    AddedOnce(dev, op, a);
  }

  // A no counts exactly for a row that waits, and nothing is sent.
  lemma NoExactly(env: Env, w: World, v: nat, op: Bytes)
    requires Sees(w, v, op) && DeviceOf(w, v, op).rows[op].state == Pending
    ensures var d, w' := w.views[v].d, Do(env, w, SayNo(v, op));
            && d in w'.devices && op in w'.devices[d].rows && w'.signed == w.signed && w'.said == w.said
            && (w'.devices[d].rows[op].state == Declined <==> RowSeen(w, v, op).state == Pending)
  {
    hide DoDelete, DoLocal, DoArchive, DoSign, DoRelay, MayStart, MaySayYes, ReceiveRequest, ReceiveAccept, Known;
  }

  lemma AddedOnce(dev: Device, op: Bytes, a: Accept)
    ensures HasFrom(AcceptsOf(AddAccept(dev, op, a), op), a.keyHash)
  {
    var held := AcceptsOf(dev, op);
    if !HasFrom(held, a.keyHash) { assert (held + [a])[|held|] == a; }
  }

  // Once an order was submitted with so many acceptances, it is not submitted again before there are more.
  lemma NotAgain(env: Env, w: World, v: nat, op: Bytes, v': nat)
    requires MaySubmit(w, v, op) && v' in w.views && w.views[v'].d == w.views[v].d
    ensures !MaySubmit(DoSubmit(env, w, v, op), v', op)
  {
    hide SignedIn, DeleteVerdict, CarryOut, AcceptsOf;
    SameAccepts(DeviceOf(w, v, op), op, |AcceptsOf(DeviceOf(w, v, op), op)|);
  }

  lemma SameAccepts(dev: Device, op: Bytes, n: nat)
    ensures AcceptsOf(dev.(attempts := dev.attempts[op := n]), op) == AcceptsOf(dev, op)
  {
  }

  // A catch-up: the device then has the hash of every entry of the log from where it was, and knows which are redacted.
  predicate CaughtUp(chat: Chat, log: seq<LogEntry>, chat': Chat) {
    && |chat'.chain| == |log| && |chat.chain| <= |log| && chat'.chain[..|chat.chain|] == chat.chain
    && (forall i :: |chat.chain| <= i < |log| ==> chat'.chain[i] == log[i].hash && (log[i].tombstone ==> i + 1 in chat'.redacted))
    && (forall n :: n in chat'.redacted ==> n in chat.redacted || (|chat.chain| < n <= |log| && log[n - 1].tombstone))
    && chat.redacted <= chat'.redacted && chat'.messages == chat.messages
  }

  lemma CaughtMeans(chat: Chat, log: seq<LogEntry>)
    requires |chat.chain| <= |log|
    ensures CaughtUp(chat, log, Caught(chat, log))
  {
    var more, chat' := Missed(chat, log), Caught(chat, log);
    forall i | |chat.chain| <= i < |log| ensures chat'.chain[i] == log[i].hash && (log[i].tombstone ==> i + 1 in chat'.redacted) {
      assert more[i - |chat.chain|] == log[i];
      assert log[i].tombstone ==> |chat.chain| + (i - |chat.chain|) + 1 in chat'.redacted;
    }
  }

  lemma CatchesUp(env: Env, w: World, d: nat, c: Bytes)
    requires SignedIn(env, w, d, c) && |w.devices[d].chats[c].chain| <= |w.archives[c].log|
    ensures var w' := Do(env, w, Sync(d, c));
            d in w'.devices && c in w'.devices[d].chats && CaughtUp(w.devices[d].chats[c], w.archives[c].log, w'.devices[d].chats[c])
  {
    hide Caught, CaughtUp, DoDelete, DoLocal, DoAnswer, DoSign, DoRelay, MayJoin;
    CaughtMeans(w.devices[d].chats[c], w.archives[c].log);
  }

  // ---- The relay's verdict ----

  // Everything the relay asks of an order.
  predicate Due(relay: Bytes, archives: map<Bytes, RelayArchive>, c: Bytes, o: Order, now: int) {
    && Decodes(o) && now <= o.expires && c in archives && !Registering(archives[c], now)
    && (forall m :: m in archives[c].members ==> Backs(o.signatures, InputOf(relay, c, o), m))
    && (o.scope == SCOPE_ENTRIES ==> forall i :: 0 <= i < |o.entries| ==> InLog(archives[c].log, o.entries[i]))
  }

  // It carries out exactly the orders that are due, and calls exactly those expired that came too late.
  lemma VerdictExactly(relay: Bytes, archives: map<Bytes, RelayArchive>, c: Bytes, o: Order, now: int)
    ensures DeleteVerdict(relay, archives, c, o, now) == CarriedOut <==> Due(relay, archives, c, o, now)
    ensures DeleteVerdict(relay, archives, c, o, now) == Lapsed <==> Decodes(o) && o.expires < now
  {
    hide Decodes, Backs, InLog, MembersVerdict;
    if c in archives {
      EveryoneSigned(archives[c].members, o.signatures, InputOf(relay, c, o));
      NeverLapsed(archives[c].members, o.signatures, InputOf(relay, c, o));
    }
  }

  lemma {:induction false} NeverLapsed(members: seq<Member>, signatures: seq<Accept>, input: Input)
    ensures MembersVerdict(members, signatures, input) != Lapsed
    decreases |members|
  {
    hide SignatureOf, Verifies;
    if members != [] { NeverLapsed(members[1..], signatures, input); }
  }

  // The order a step hands to the relay, if any.
  function Handed(env: Env, w: World, a: Action): Option<(Bytes, Order)> {
    match a
    case Submit(v, op) =>
      if MaySubmit(w, v, op) && SignedIn(env, w, w.views[v].d, RowSeen(w, v, op).conv)
      then Some((RowSeen(w, v, op).conv, OrderOf(DeviceOf(w, v, op), op, RowSeen(w, v, op)))) else None
    case SubmitOrder(c, order) => if AllKnown(w.signed, order.signatures) then Some((c, order)) else None
    case _ => None
  }

  // Over any step of anyone, the relay carries something out exactly when an order that is due is handed to it, and then
  // exactly that.
  lemma ExecutesExactly(env: Env, w: World, a: Action)
    ensures var w', handed := Do(env, w, a), Handed(env, w, a);
            w'.executed == w.executed +
              if handed.Some? && Due(env.relay, w.archives, handed.value.0, handed.value.1, w.clock)
              then [Executed(InputOf(env.relay, handed.value.0, handed.value.1), w.archives[handed.value.0].members)] else []
  {
    hide Due, DoAnswer, DoLocal, DoArchive, DoSign, DoRelay, DoCheck, DoHear, DeleteVerdict, CarryOut, AllKnown, SignedIn, AcceptsOf;
    assert w.executed + [] == w.executed;
    match a
    case Submit(v, op) => if MaySubmit(w, v, op) { SubmitExecutes(env, w, v, op); }
    case SubmitOrder(c, order) => VerdictExactly(env.relay, w.archives, c, order, w.clock); DueHere(env.relay, w.archives, c, order, w.clock);
    case Check(v, op, reached, heard) => CheckExecutes(env, w, v, op, reached, heard);
    case _ => OthersExecute(env, w, a);
  }

  lemma DueHere(relay: Bytes, archives: map<Bytes, RelayArchive>, c: Bytes, o: Order, now: int)
    ensures Due(relay, archives, c, o, now) ==> c in archives
  {
  }

  lemma SubmitExecutes(env: Env, w: World, v: nat, op: Bytes)
    requires MaySubmit(w, v, op)
    ensures var w', c, order := DoSubmit(env, w, v, op), RowSeen(w, v, op).conv, OrderOf(DeviceOf(w, v, op), op, RowSeen(w, v, op));
            w'.executed == w.executed +
              if SignedIn(env, w, w.views[v].d, c) && Due(env.relay, w.archives, c, order, w.clock)
              then [Executed(InputOf(env.relay, c, order), w.archives[c].members)] else []
  {
    hide Due, DeleteVerdict, CarryOut, AcceptsOf, SignedIn;
    var c, order := RowSeen(w, v, op).conv, OrderOf(DeviceOf(w, v, op), op, RowSeen(w, v, op));
    VerdictExactly(env.relay, w.archives, c, order, w.clock);
    DueHere(env.relay, w.archives, c, order, w.clock);
    assert w.executed + [] == w.executed;
  }

  lemma CheckExecutes(env: Env, w: World, v: nat, op: Bytes, reached: bool, heard: set<Bytes>)
    ensures DoDelete(env, w, Check(v, op, reached, heard)).executed == w.executed
  {
    hide SignedIn, IsGone, Noted, SetState;
  }

  lemma OthersExecute(env: Env, w: World, a: Action)
    requires !a.Submit? && !a.SubmitOrder? && !a.Check?
    ensures Do(env, w, a).executed == w.executed
  {
    hide MayRegister, Unheard, Fits, Caught, SignedIn, MayJoin, MaySayYes, MaySayNo, MayStart, Known, ReceiveRequest, ReceiveAccept, Apply, SetState;
  }

  // The relay's sweep takes away exactly the archives nobody joined in time.
  lemma SweepsExactly(env: Env, w: World, c: Bytes)
    ensures var w' := Do(env, w, Sweep);
            && (c in w'.archives <==> c in w.archives && (w.clock < w.archives[c].closes || w.archives[c].members != []))
            && (c in w'.archives ==> w'.archives[c] == w.archives[c])
  {
    hide DoDelete, DoAnswer, DoLocal, DoArchive, DoSign;
  }

  // ---- What a device does about the relay's answer ----

  // An order that came too late: the row expires, and nothing else does.
  lemma TooLate(env: Env, w: World, v: nat, op: Bytes)
    requires MaySubmit(w, v, op) && SignedIn(env, w, w.views[v].d, RowSeen(w, v, op).conv)
    requires var order := OrderOf(DeviceOf(w, v, op), op, RowSeen(w, v, op)); Decodes(order) && order.expires < w.clock
    ensures var d, w1 := w.views[v].d, DoSubmit(env, w, v, op);
            && MayHear(w1, v) && w1.archives == w.archives
            && var w2 := DoHear(w1, v);
               && w2.archives == w.archives && w2.devices[d].chats == w.devices[d].chats
               && w2.devices[d].rows == w.devices[d].rows[op := w.devices[d].rows[op].(state := Expired)]
  {
    hide Decodes, DeleteVerdict, AcceptsOf, SignedIn, CarryOut;
    VerdictExactly(env.relay, w.archives, RowSeen(w, v, op).conv, OrderOf(DeviceOf(w, v, op), op, RowSeen(w, v, op)), w.clock);
  }

  // The order of this copy has been carried out, as far as the device can see: it cannot sign in to the archive any more,
  // or it knows every named entry and the relay shows it redacted, or it has seen that before.
  predicate Visible(env: Env, w: World, v: nat, op: Bytes, heard: set<Bytes>) {
    && Sees(w, v, op) && RowSeen(w, v, op).state == Accepted && w.views[v].wall < RowSeen(w, v, op).expires
    && var dev, r := DeviceOf(w, v, op), RowSeen(w, v, op);
       && JoinedIn(dev, r.conv)
       && if r.scope == SCOPE_CHAT then !SignedIn(env, w, w.views[v].d, r.conv)
          else
            && SignedIn(env, w, w.views[v].d, r.conv)
            && forall i :: 0 <= i < |r.entries| ==> IsGone(dev.chats[r.conv], w.archives[r.conv].log, heard, r.entries[i])
  }

  lemma {:induction false} RedactedMeanwhile(chat: Chat, redacted: set<int>, entries: seq<Bytes>)
    ensures EraseEntries(chat.(redacted := redacted), entries).messages == EraseEntries(chat, entries).messages
    decreases |entries|
  {
    if entries != [] {
      hide NumberOf;
      var front := entries[..|entries| - 1];
      RedactedMeanwhile(chat, redacted, front);
      ErasesExactly(chat, front, [], 0);
      ErasesExactly(chat.(redacted := redacted), front, [], 0);
    }
  }

  // Someone else submitted it: a check finds out, and then this device erases the same, and its row is done.
  lemma CheckSuffices(env: Env, w: World, v: nat, op: Bytes, heard: set<Bytes>)
    requires Visible(env, w, v, op, heard) && SameOrder(RowSeen(w, v, op), DeviceOf(w, v, op).rows[op])
    ensures var d, r := w.views[v].d, RowSeen(w, v, op);
            var c, chat, w1 := r.conv, w.devices[d].chats[r.conv], DoCheck(env, w, v, op, true, heard);
            && MayHear(w1, v)
            && var w2 := DoHear(w1, v);
               && w2.archives == w.archives && w2.clock == w.clock && w2.executed == w.executed && w2.devices.Keys == w.devices.Keys && d in w2.devices
               && (forall e :: e in w.devices && e != d ==> e in w2.devices && w2.devices[e] == w.devices[e])
               && op in w2.devices[d].rows && w2.devices[d].rows[op] == r.(state := Done) && c in w2.devices[d].chats
               && (if r.scope == SCOPE_CHAT then IsEmpty(w2.devices[d].chats[c]) else w2.devices[d].chats[c].messages == EraseEntries(chat, r.entries).messages)
  {
    hide *;
    CheckFinds(env, w, v, op, heard);
    HearErases(env, w, v, op, heard);
  }

  // What the check leaves: the same, but for the entries noted as redacted and what it has learnt.
  lemma CheckFinds(env: Env, w: World, v: nat, op: Bytes, heard: set<Bytes>)
    requires Visible(env, w, v, op, heard)
    ensures var d, dev, r := w.views[v].d, DeviceOf(w, v, op), RowSeen(w, v, op);
            var w1, chat := DoCheck(env, w, v, op, true, heard), dev.chats[r.conv];
            && v in w1.replies && w1.replies[v] == Reply(d, op, r, chat.archive.value.key, true)
            && w1.archives == w.archives && w1.clock == w.clock && w1.executed == w.executed
            && exists redacted :: w1.devices == w.devices[d := dev.(chats := dev.chats[r.conv := chat.(redacted := redacted)])]
  {
    hide IsGone, SignedIn, Noted;
    var d, dev, r := w.views[v].d, DeviceOf(w, v, op), RowSeen(w, v, op);
    var w1, chat := DoCheck(env, w, v, op, true, heard), dev.chats[r.conv];
    if r.scope == SCOPE_CHAT {
      assert dev.chats[r.conv := chat] == dev.chats && w.devices[d := dev] == w.devices;
      assert w1.devices == w.devices[d := dev.(chats := dev.chats[r.conv := chat.(redacted := chat.redacted)])];
    } else {
      IsThereToo(env, w, d, r.conv);
      NotedOnly(env, w, d, r.conv, heard, r.entries);
      var redacted := Noted(chat, w.archives[r.conv].log, heard, r.entries).redacted;
      assert w1.devices == w.devices[d := dev.(chats := dev.chats[r.conv := chat.(redacted := redacted)])];
    }
  }

  lemma HearErases(env: Env, w: World, v: nat, op: Bytes, heard: set<Bytes>)
    requires Visible(env, w, v, op, heard) && SameOrder(RowSeen(w, v, op), DeviceOf(w, v, op).rows[op])
    requires var d, dev, r := w.views[v].d, DeviceOf(w, v, op), RowSeen(w, v, op);
             var w1, chat := DoCheck(env, w, v, op, true, heard), dev.chats[r.conv];
             && v in w1.replies && w1.replies[v] == Reply(d, op, r, chat.archive.value.key, true)
             && w1.archives == w.archives && w1.clock == w.clock && w1.executed == w.executed
             && exists redacted :: w1.devices == w.devices[d := dev.(chats := dev.chats[r.conv := chat.(redacted := redacted)])]
    ensures var d, r := w.views[v].d, RowSeen(w, v, op);
            var c, chat, w1 := r.conv, w.devices[d].chats[r.conv], DoCheck(env, w, v, op, true, heard);
            && MayHear(w1, v)
            && var w2 := DoHear(w1, v);
               && w2.archives == w.archives && w2.clock == w.clock && w2.executed == w.executed && w2.devices.Keys == w.devices.Keys && d in w2.devices
               && (forall e :: e in w.devices && e != d ==> e in w2.devices && w2.devices[e] == w.devices[e])
               && op in w2.devices[d].rows && w2.devices[d].rows[op] == r.(state := Done) && c in w2.devices[d].chats
               && (if r.scope == SCOPE_CHAT then IsEmpty(w2.devices[d].chats[c]) else w2.devices[d].chats[c].messages == EraseEntries(chat, r.entries).messages)
  {
    hide DoCheck, IsGone, SignedIn, EraseEntries;
    var d, dev, r := w.views[v].d, DeviceOf(w, v, op), RowSeen(w, v, op);
    var chat, w1 := dev.chats[r.conv], DoCheck(env, w, v, op, true, heard);
    var redacted :| w1.devices == w.devices[d := dev.(chats := dev.chats[r.conv := chat.(redacted := redacted)])];
    RedactedMeanwhile(chat, redacted, r.entries);
  }

  lemma NotedOnly(env: Env, w: World, d: nat, c: Bytes, heard: set<Bytes>, entries: seq<Bytes>)
    requires SignedIn(env, w, d, c)
    ensures var chat := w.devices[d].chats[c];
            var noted := Noted(chat, w.archives[c].log, heard, entries);
            noted == chat.(redacted := noted.redacted) && EraseEntries(noted, entries).messages == EraseEntries(chat, entries).messages
  {
    hide ShownGone, EraseEntries;
    var chat := w.devices[d].chats[c];
    RedactedMeanwhile(chat, Noted(chat, w.archives[c].log, heard, entries).redacted, entries);
  }

  // ---- Everyone agrees ----

  // A member's device, how others know them, their key for the chat, and the time there.
  datatype Party = Party(d: nat, me: Bytes, key: Bytes, now: int)

  // What is asked: by whom, and the order itself.
  datatype Plan = Plan(asker: Party, c: Bytes, scope: int, op: Bytes, entries: seq<Bytes>, v: nat)

  function Expires(p: Plan): int {
    p.asker.now + REQUEST_LIFETIME
  }

  function InputFor(env: Env, p: Plan): Input {
    DeleteInput(env.relay, p.c, p.scope, p.op, Expires(p), p.entries)
  }

  function AcceptOf(env: Env, p: Plan, q: Party): Accept {
    Accept(env.sha(q.key), Signed(q.key, InputFor(env, p)))
  }

  function RowFor(p: Plan, state: State): Row {
    Row(p.c, p.scope, Expires(p), p.asker.me, p.entries, state)
  }

  function Asks(p: Plan): Action {
    Ask(p.asker.d, p.asker.me, p.c, p.scope, p.op, p.entries, p.asker.now)
  }

  // One member is asked, says yes, and their acceptance reaches the one who asked.
  function Agrees(env: Env, p: Plan, q: Party): seq<Action> {
    [Request(q.d, p.c, p.asker.me, true, p.scope, p.op, Expires(p), p.entries, q.now), Look(p.v, q.d, q.now), SayYes(p.v, p.op),
     Acceptance(p.asker.d, p.c, q.me, true, p.op, AcceptOf(env, p, q))]
  }

  function AllAgree(env: Env, p: Plan, qs: seq<Party>): seq<Action>
    decreases |qs|
  {
    if qs == [] then [] else AllAgree(env, p, qs[..|qs| - 1]) + Agrees(env, p, qs[|qs| - 1])
  }

  function AcceptsFrom(env: Env, p: Plan, qs: seq<Party>): seq<Accept> {
    seq(|qs|, i requires 0 <= i < |qs| => AcceptOf(env, p, qs[i]))
  }

  predicate InChat(w: World, p: Plan, q: Party) {
    && q.d in w.devices && JoinedIn(w.devices[q.d], p.c) && w.devices[q.d].chats[p.c].archive.value.key == q.key
    && p.op !in w.devices[q.d].rows && p.op !in w.devices[q.d].accepts && p.op !in w.devices[q.d].attempts
  }

  // The others: on devices of their own, under keys of their own, and the two know each other as members of the chat.
  predicate CanAgree(env: Env, w: World, p: Plan, q: Party) {
    && InChat(w, p, q) && q.d != p.asker.d && env.sha(q.key) != env.sha(p.asker.key)
    && p.asker.d in w.devices && p.c in w.devices[p.asker.d].chats
    && p.asker.me in w.devices[q.d].chats[p.c].others && q.me in w.devices[p.asker.d].chats[p.c].others
    && 0 <= q.now < Expires(p) <= q.now + REQUEST_LIFETIME + REQUEST_SLACK
  }

  predicate Apart(env: Env, qs: seq<Party>) {
    forall i, j :: 0 <= i < j < |qs| ==> qs[i].d != qs[j].d && env.sha(qs[i].key) != env.sha(qs[j].key)
  }

  predicate CanAll(env: Env, w: World, p: Plan, qs: seq<Party>) {
    && InChat(w, p, p.asker) && MayStart(w.devices[p.asker.d], p.c, p.scope, p.op, p.entries, p.asker.now)
    && |p.c| == ARCHIVE_ID_BYTES && 0 <= p.asker.now < TWO64 / 4
    && (forall i :: 0 <= i < |qs| ==> CanAgree(env, w, p, qs[i])) && Apart(env, qs)
  }

  // So far the one who asked and these have agreed.
  predicate SoFar(env: Env, w: World, w': World, p: Plan, done: seq<Party>) {
    && w'.archives == w.archives && w'.clock == w.clock && w'.executed == w.executed && w'.devices.Keys == w.devices.Keys
    && AskerSoFar(env, w, w', p, done) && OthersSoFar(w, w', p, done)
  }

  predicate AskerSoFar(env: Env, w: World, w': World, p: Plan, done: seq<Party>) {
    && p.asker.d in w.devices && p.asker.d in w'.devices
    && var dev := w'.devices[p.asker.d];
       && dev.chats == w.devices[p.asker.d].chats && p.op !in dev.attempts
       && p.op in dev.rows && dev.rows[p.op] == RowFor(p, Accepted)
       && AcceptsOf(dev, p.op) == [AcceptOf(env, p, p.asker)] + AcceptsFrom(env, p, done)
  }

  predicate OthersSoFar(w: World, w': World, p: Plan, done: seq<Party>) {
    && (forall i :: 0 <= i < |done| ==> HasAgreed(w, w', p, done[i]))
    && (forall d :: d in w.devices && d != p.asker.d && NotAmong(done, d) ==> d in w'.devices && w'.devices[d] == w.devices[d])
  }

  predicate NotAmong(qs: seq<Party>, d: nat) {
    forall i :: 0 <= i < |qs| ==> qs[i].d != d
  }

  predicate HasAgreed(w: World, w': World, p: Plan, q: Party) {
    && q.d != p.asker.d && q.d in w.devices && q.d in w'.devices && w'.devices[q.d].chats == w.devices[q.d].chats
    && p.op in w'.devices[q.d].rows && w'.devices[q.d].rows[p.op] == RowFor(p, Accepted)
  }

  lemma FourSteps(env: Env, w: World, a: Action, b: Action, c: Action, d: Action)
    ensures Run(env, w, [a, b, c, d]) == Do(env, Do(env, Do(env, Do(env, w, a), b), c), d)
  {
    hide Do;
    var w1, w2, w3 := Do(env, w, a), Do(env, Do(env, w, a), b), Do(env, Do(env, Do(env, w, a), b), c);
    assert [a, b, c, d][1..] == [b, c, d] && [b, c, d][1..] == [c, d] && [c, d][1..] == [d] && [d][1..] == [];
    assert Run(env, w, [a, b, c, d]) == Run(env, w1, [b, c, d]) == Run(env, w2, [c, d]) == Run(env, w3, [d]) == Run(env, Do(env, w3, d), []);
  }

  lemma StartMeans(dev: Device, me: Bytes, c: Bytes, scope: int, op: Bytes, entries: seq<Bytes>, now: int, a: Accept)
    requires op !in dev.accepts
    ensures var dev' := Start(dev, me, c, scope, op, entries, now, a);
            && dev'.chats == dev.chats && dev'.attempts == dev.attempts && AcceptsOf(dev', op) == [a]
            && dev'.rows == dev.rows[op := Row(c, scope, now + REQUEST_LIFETIME, me, entries, Accepted)]
  {
  }

  lemma Asked(env: Env, w: World, p: Plan, qs: seq<Party>)
    requires CanAll(env, w, p, qs)
    ensures SoFar(env, w, Do(env, w, Asks(p)), p, [])
  {
    hide ValidOrder, LiveChatRequest, Start, CanAgree, AcceptsOf, Apart;
    assert [AcceptOf(env, p, p.asker)] + AcceptsFrom(env, p, []) == [AcceptOf(env, p, p.asker)];
    StartMeans(w.devices[p.asker.d], p.asker.me, p.c, p.scope, p.op, p.entries, p.asker.now, AcceptOf(env, p, p.asker));
  }

  // The request reaches a member's device.
  lemma RequestArrives(env: Env, w: World, p: Plan, q: Party)
    requires CanAgree(env, w, p, q) && p.asker.d in w.devices && |p.c| == ARCHIVE_ID_BYTES && 0 <= p.asker.now < TWO64 / 4 && ValidOrder(p.scope, p.op, p.entries)
    ensures var dev := w.devices[q.d];
            Do(env, w, Agrees(env, p, q)[0]) == Put(w, q.d, dev.(rows := dev.rows[p.op := RowFor(p, Pending)]))
  {
    hide ValidOrder;
  }

  // Their user reads it and says yes.
  lemma YesGiven(env: Env, w: World, p: Plan, q: Party)
    requires q.d in w.devices && JoinedIn(w.devices[q.d], p.c) && w.devices[q.d].chats[p.c].archive.value.key == q.key
    requires p.op in w.devices[q.d].rows && w.devices[q.d].rows[p.op] == RowFor(p, Pending) && q.now < Expires(p)
    ensures var w' := Do(env, Do(env, w, Look(p.v, q.d, q.now)), SayYes(p.v, p.op));
            && w'.archives == w.archives && w'.clock == w.clock && w'.executed == w.executed
            && q.d in w'.devices && w'.devices == w.devices[q.d := w'.devices[q.d]] && (q.key, InputFor(env, p)) in w'.signed
            && w'.devices[q.d].chats == w.devices[q.d].chats && w'.devices[q.d].rows == w.devices[q.d].rows[p.op := RowFor(p, Accepted)]
  {
    hide Do, Agree;
    var w1 := w.(views := w.views[p.v := View(q.d, w.devices[q.d].rows, q.now)]);
    LooksOnce(env, w, p.v, q.d, q.now);
    YesIs(env, w1, p.v, p.op);
    AgreeRows(w.devices[q.d], p.op, AcceptOf(env, p, q));
  }

  lemma YesIs(env: Env, w: World, v: nat, op: Bytes)
    requires MaySayYes(w, v, op)
    ensures Do(env, w, SayYes(v, op)) == DoYes(env, w, v, op)
  {
    hide MaySayYes, DoYes, DoDelete, DoLocal, DoArchive, DoSign, DoRelay;
  }

  lemma NoneYet(env: Env, p: Plan, done: seq<Party>, q: Party)
    requires env.sha(q.key) != env.sha(p.asker.key) && forall i :: 0 <= i < |done| ==> env.sha(done[i].key) != env.sha(q.key)
    ensures !HasFrom([AcceptOf(env, p, p.asker)] + AcceptsFrom(env, p, done), env.sha(q.key))
    ensures [AcceptOf(env, p, p.asker)] + AcceptsFrom(env, p, done) + [AcceptOf(env, p, q)] == [AcceptOf(env, p, p.asker)] + AcceptsFrom(env, p, done + [q])
  {
  }

  lemma OneMore(env: Env, w: World, w0: World, p: Plan, done: seq<Party>, q: Party)
    requires SoFar(env, w, w0, p, done) && CanAgree(env, w, p, q)
    requires |p.c| == ARCHIVE_ID_BYTES && 0 <= p.asker.now < TWO64 / 4 && ValidOrder(p.scope, p.op, p.entries)
    requires Others(env, done, q)
    ensures SoFar(env, w, Run(env, w0, Agrees(env, p, q)), p, done + [q])
  {
    hide Do, Run, ValidOrder, SoFar, CanAgree, Others, AcceptsFrom, AcceptOf, InputFor;
    var request, look, yes := Agrees(env, p, q)[0], Agrees(env, p, q)[1], Agrees(env, p, q)[2];
    var arrives := Agrees(env, p, q)[3];
    FourSteps(env, w0, request, look, yes, arrives);
    StillCan(env, w, w0, p, done, q);
    RequestArrives(env, w0, p, q);
    IsPending(env, w0, p, q);
    var w1 := Do(env, w0, request);
    YesGiven(env, w1, p, q);
    var w3 := Do(env, Do(env, w1, look), yes);
    AcceptanceArrives(env, w, w0, w1, w3, p, done, q);
  }

  // These are on other devices and under other keys.
  predicate Others(env: Env, done: seq<Party>, q: Party) {
    forall i :: 0 <= i < |done| ==> done[i].d != q.d && env.sha(done[i].key) != env.sha(q.key)
  }

  lemma IsPending(env: Env, w: World, p: Plan, q: Party)
    requires CanAgree(env, w, p, q)
    ensures var dev := w.devices[q.d];
            var w1 := Put(w, q.d, dev.(rows := dev.rows[p.op := RowFor(p, Pending)]));
            && q.d in w1.devices && JoinedIn(w1.devices[q.d], p.c) && w1.devices[q.d].chats == w.devices[q.d].chats
            && w1.devices[q.d].chats[p.c].archive.value.key == q.key && p.op in w1.devices[q.d].rows
            && w1.devices[q.d].rows[p.op] == RowFor(p, Pending) && q.now < Expires(p)
            && w1.devices == w.devices[q.d := w1.devices[q.d]] && w1.archives == w.archives && w1.clock == w.clock && w1.executed == w.executed
  {
  }

  lemma AcceptanceArrives(env: Env, w: World, w0: World, w1: World, w3: World, p: Plan, done: seq<Party>, q: Party)
    requires SoFar(env, w, w0, p, done) && CanAgree(env, w, p, q) && Others(env, done, q)
    requires q.d in w0.devices && q.d in w1.devices && w1.devices == w0.devices[q.d := w1.devices[q.d]] && w1.devices[q.d].chats == w0.devices[q.d].chats
    requires w1.archives == w0.archives && w1.clock == w0.clock && w1.executed == w0.executed
    requires w3.archives == w1.archives && w3.clock == w1.clock && w3.executed == w1.executed && (q.key, InputFor(env, p)) in w3.signed
    requires q.d in w3.devices && w3.devices == w1.devices[q.d := w3.devices[q.d]] && w3.devices[q.d].chats == w1.devices[q.d].chats
    requires p.op in w3.devices[q.d].rows && w3.devices[q.d].rows[p.op] == RowFor(p, Accepted)
    ensures SoFar(env, w, Do(env, w3, Acceptance(p.asker.d, p.c, q.me, true, p.op, AcceptOf(env, p, q))), p, done + [q])
  {
    hide Do, AcceptsOf, AcceptsFrom, AcceptOf, InputFor, HasAgreed;
    SignatureIsKnown(env, p, q, w3.signed);
    AcceptanceHeld(env, w3, p.asker.d, p.c, q.me, true, p.op, AcceptOf(env, p, q));
    NoneYet(env, p, done, q);
    KeyHashIs(env, p, q);
    assert w3.devices[p.asker.d] == w0.devices[p.asker.d];
    MoreAgreed(env, w, w0, w3, Do(env, w3, Acceptance(p.asker.d, p.c, q.me, true, p.op, AcceptOf(env, p, q))), p, done, q);
  }

  lemma MoreAgreed(env: Env, w: World, w0: World, w3: World, w4: World, p: Plan, done: seq<Party>, q: Party)
    requires SoFar(env, w, w0, p, done) && q.d in w.devices && q.d != p.asker.d && NotAmong(done, q.d)
    requires w3.archives == w0.archives && w3.clock == w0.clock && w3.executed == w0.executed
    requires q.d in w0.devices && q.d in w3.devices && w3.devices == w0.devices[q.d := w3.devices[q.d]]
    requires w3.devices[q.d].chats == w0.devices[q.d].chats && p.op in w3.devices[q.d].rows && w3.devices[q.d].rows[p.op] == RowFor(p, Accepted)
    requires p.asker.d in w3.devices && p.asker.d in w4.devices && w4 == w3.(devices := w3.devices[p.asker.d := w4.devices[p.asker.d]])
    requires w4.devices[p.asker.d].(accepts := w3.devices[p.asker.d].accepts) == w3.devices[p.asker.d]
    requires AcceptsOf(w4.devices[p.asker.d], p.op) == [AcceptOf(env, p, p.asker)] + AcceptsFrom(env, p, done + [q])
    ensures SoFar(env, w, w4, p, done + [q])
  {
    hide AcceptsOf, AcceptsFrom, AcceptOf, RowFor, HasAgreed, NotAmong;
    var all := done + [q];
    forall i | 0 <= i < |all| ensures HasAgreed(w, w4, p, all[i]) {
      if i < |done| { AgreedElsewhere(w, w0, p, done, q, i); StillAgreed(w, w0, w4, p, done[i]); } else { JustAgreed(w, w0, w3, w4, p, q); }
    }
    forall d | d in w.devices && d != p.asker.d && NotAmong(all, d) ensures d in w4.devices && w4.devices[d] == w.devices[d] { AmongMore(done, q, d); }
  }

  lemma AgreedElsewhere(w: World, w0: World, p: Plan, done: seq<Party>, q: Party, i: nat)
    requires i < |done| && HasAgreed(w, w0, p, done[i]) && NotAmong(done, q.d)
    ensures done[i].d != q.d && done[i].d != p.asker.d && done[i].d in w0.devices
  {
  }

  lemma StillAgreed(w: World, w0: World, w4: World, p: Plan, q: Party)
    requires HasAgreed(w, w0, p, q) && q.d in w4.devices && w4.devices[q.d] == w0.devices[q.d]
    ensures HasAgreed(w, w4, p, q)
  {
  }

  lemma JustAgreed(w: World, w0: World, w3: World, w4: World, p: Plan, q: Party)
    requires q.d != p.asker.d && q.d in w.devices && q.d in w0.devices && q.d in w3.devices && w0.devices[q.d].chats == w.devices[q.d].chats
    requires w3.devices[q.d].chats == w0.devices[q.d].chats && p.op in w3.devices[q.d].rows && w3.devices[q.d].rows[p.op] == RowFor(p, Accepted)
    requires q.d in w4.devices && w4.devices[q.d] == w3.devices[q.d]
    ensures HasAgreed(w, w4, p, q)
  {
  }

  lemma AmongMore(done: seq<Party>, q: Party, d: nat)
    requires NotAmong(done + [q], d)
    ensures NotAmong(done, d) && q.d != d
  {
    assert (done + [q])[|done|] == q && forall i :: 0 <= i < |done| ==> (done + [q])[i] == done[i];
  }

  lemma StillCan(env: Env, w: World, w0: World, p: Plan, done: seq<Party>, q: Party)
    requires SoFar(env, w, w0, p, done) && CanAgree(env, w, p, q) && Others(env, done, q)
    ensures CanAgree(env, w0, p, q) && p.asker.d in w0.devices && q.d in w0.devices
  {
    hide AcceptsOf, AcceptsFrom;
  }

  lemma SignatureIsKnown(env: Env, p: Plan, q: Party, signed: set<(Bytes, Input)>)
    requires (q.key, InputFor(env, p)) in signed
    ensures Known(signed, AcceptOf(env, p, q).signature)
  {
  }

  lemma KeyHashIs(env: Env, p: Plan, q: Party)
    ensures AcceptOf(env, p, q).keyHash == env.sha(q.key)
  {
  }

  lemma {:induction false} AllSoFar(env: Env, w: World, p: Plan, qs: seq<Party>)
    requires CanAll(env, w, p, qs)
    ensures SoFar(env, w, Run(env, Do(env, w, Asks(p)), AllAgree(env, p, qs)), p, qs)
    decreases |qs|
  {
    hide Do, Run, SoFar, CanAll, CanAgree, Agrees, AllAgree, Others;
    var w0 := Do(env, w, Asks(p));
    if qs == [] {
      Asked(env, w, p, qs);
      NoneAgree(env, w0, p);
    } else {
      var front, q := qs[..|qs| - 1], qs[|qs| - 1];
      FrontCan(env, w, p, qs);
      AllSoFar(env, w, p, front);
      LastAgrees(env, w0, p, qs);
      OneMore(env, w, Run(env, w0, AllAgree(env, p, front)), p, front, q);
      assert front + [q] == qs;
    }
  }

  lemma NoneAgree(env: Env, w: World, p: Plan)
    ensures Run(env, w, AllAgree(env, p, [])) == w && Run(env, w, AllLearn(p, [])) == w
  {
  }

  lemma LastAgrees(env: Env, w: World, p: Plan, qs: seq<Party>)
    requires qs != []
    ensures var front, q := qs[..|qs| - 1], qs[|qs| - 1];
            && Run(env, w, AllAgree(env, p, qs)) == Run(env, Run(env, w, AllAgree(env, p, front)), Agrees(env, p, q))
            && Run(env, w, AllLearn(p, qs)) == Run(env, Run(env, w, AllLearn(p, front)), Learns(p, q))
  {
    hide Run, Agrees, Learns;
    var front, q := qs[..|qs| - 1], qs[|qs| - 1];
    InParts(env, w, AllAgree(env, p, front), Agrees(env, p, q));
    InParts(env, w, AllLearn(p, front), Learns(p, q));
  }

  lemma FrontCan(env: Env, w: World, p: Plan, qs: seq<Party>)
    requires CanAll(env, w, p, qs) && qs != []
    ensures var front, q := qs[..|qs| - 1], qs[|qs| - 1]; CanAll(env, w, p, front) && CanAgree(env, w, p, q) && Others(env, front, q)
    ensures |p.c| == ARCHIVE_ID_BYTES && 0 <= p.asker.now < TWO64 / 4 && ValidOrder(p.scope, p.op, p.entries)
  {
    hide CanAgree, MayStart, JoinedIn;
    Starts(w, p);
  }

  lemma Starts(w: World, p: Plan)
    requires p.asker.d in w.devices && MayStart(w.devices[p.asker.d], p.c, p.scope, p.op, p.entries, p.asker.now)
    ensures ValidOrder(p.scope, p.op, p.entries) && JoinedIn(w.devices[p.asker.d], p.c)
  {
  }

  // ---- The one who asked submits ----

  lemma {:induction false} SignatureAt(signatures: seq<Accept>, i: nat)
    requires i < |signatures| && OneEach(signatures)
    ensures SignatureOf(signatures, signatures[i].keyHash) == Some(signatures[i].signature)
    decreases |signatures|
  {
    if i < |signatures| - 1 { SignatureAt(signatures[..|signatures| - 1], i); }
  }

  lemma AllApart(env: Env, p: Plan, qs: seq<Party>)
    requires Apart(env, qs) && forall i :: 0 <= i < |qs| ==> env.sha(qs[i].key) != env.sha(p.asker.key)
    ensures OneEach([AcceptOf(env, p, p.asker)] + AcceptsFrom(env, p, qs))
  {
  }

  // This key is that of the one who asked, or of one of the others.
  predicate Takes(env: Env, p: Plan, qs: seq<Party>, m: Member) {
    m == MemberOf(env, p.asker.key) || exists i :: 0 <= i < |qs| && m == MemberOf(env, qs[i].key)
  }

  lemma EachBacks(env: Env, p: Plan, qs: seq<Party>, m: Member)
    requires Takes(env, p, qs, m) && OneEach([AcceptOf(env, p, p.asker)] + AcceptsFrom(env, p, qs))
    ensures Backs([AcceptOf(env, p, p.asker)] + AcceptsFrom(env, p, qs), InputFor(env, p), m)
  {
    hide Encode, OneEach, SignatureOf;
    var signatures := [AcceptOf(env, p, p.asker)] + AcceptsFrom(env, p, qs);
    if m == MemberOf(env, p.asker.key) {
      SignatureAt(signatures, 0);
    } else {
      var i :| 0 <= i < |qs| && m == MemberOf(env, qs[i].key);
      SignatureAt(signatures, i + 1);
      assert signatures[i + 1] == AcceptOf(env, p, qs[i]);
    }
  }

  // The archive is closed to more keys, everyone registered takes part, and the entries are in it.
  predicate Ready(env: Env, w: World, p: Plan, qs: seq<Party>) {
    && p.c in w.archives && !Registering(w.archives[p.c], w.clock) && w.clock <= Expires(p)
    && MemberOf(env, p.asker.key) in w.archives[p.c].members && (forall m :: m in w.archives[p.c].members ==> Takes(env, p, qs, m))
    && (forall i :: 0 <= i < |p.entries| ==> InLog(w.archives[p.c].log, p.entries[i]))
    && 1 <= |qs| < MAX_ARCHIVE_MEMBERS
  }

  function Submits(p: Plan): seq<Action> {
    [Look(p.v, p.asker.d, p.asker.now), Submit(p.v, p.op), Hear(p.v)]
  }

  // What the submission leaves: the order carried out, and the asker's device as it says.
  predicate Deleted(env: Env, w: World, w': World, p: Plan) {
    && |w'.executed| == |w.executed| + 1 && w'.executed[|w.executed|].input == InputFor(env, p) && w'.clock == w.clock
    && w'.devices.Keys == w.devices.Keys && w'.archives.Keys - {p.c} == w.archives.Keys - {p.c}
    && (if p.scope == SCOPE_CHAT then p.c !in w'.archives
        else
          && p.c in w.archives && p.c in w'.archives && |w'.archives[p.c].log| == |w.archives[p.c].log| && w'.archives[p.c].members == w.archives[p.c].members
          && forall i :: 0 <= i < |w.archives[p.c].log| ==>
               w'.archives[p.c].log[i] == if w.archives[p.c].log[i].hash in p.entries then w.archives[p.c].log[i].(tombstone := true) else w.archives[p.c].log[i])
  }

  // A device has done what the order says: its row is done, and the chat's messages are gone, or those named.
  predicate HasErased(w: World, w': World, p: Plan, d: nat) {
    && d in w.devices && d in w'.devices && p.c in w.devices[d].chats && p.c in w'.devices[d].chats
    && p.op in w'.devices[d].rows && w'.devices[d].rows[p.op] == RowFor(p, Done)
    && (if p.scope == SCOPE_CHAT then IsEmpty(w'.devices[d].chats[p.c])
        else w'.devices[d].chats[p.c].messages == EraseEntries(w.devices[d].chats[p.c], p.entries).messages)
  }

  // Nothing is left of a chat: no message, no archive and no key for it.
  predicate IsEmpty(chat: Chat) {
    chat.messages == map[] && chat.archive == None && chat.chain == [] && chat.placed == map[] && chat.redacted == {}
  }

  lemma SubmitDone(env: Env, w: World, w0: World, p: Plan, qs: seq<Party>)
    requires EnvOk(env) && CanAll(env, w, p, qs) && Ready(env, w, p, qs) && SoFar(env, w, w0, p, qs)
    ensures var w' := Run(env, w0, Submits(p));
            && Deleted(env, w, w', p) && HasErased(w, w', p, p.asker.d)
            && forall d :: d in w0.devices && d != p.asker.d ==> d in w'.devices && w'.devices[d] == w0.devices[d]
  {
    hide Do, Run, EnvOk, CanAll, Ready, AcceptsOf, AcceptsFrom, AcceptOf, OthersSoFar, Deleted, HasErased, DoSubmit, DoHear, MaySubmit, MayHear;
    var d := p.asker.d;
    var w1 := w0.(views := w0.views[p.v := View(d, w0.devices[d].rows, p.asker.now)]);
    ThreeSteps(env, w0, Look(p.v, d, p.asker.now), Submit(p.v, p.op), Hear(p.v));
    LooksOnce(env, w0, p.v, d, p.asker.now);
    SubmitMeans(env, w, w0, w1, p, qs);
    SubmitThenHear(env, w1, p.v, p.op);
  }

  lemma SubmitMeans(env: Env, w: World, w0: World, w1: World, p: Plan, qs: seq<Party>)
    requires EnvOk(env) && CanAll(env, w, p, qs) && Ready(env, w, p, qs) && SoFar(env, w, w0, p, qs)
    requires w1 == w0.(views := w0.views[p.v := View(p.asker.d, w0.devices[p.asker.d].rows, p.asker.now)])
    ensures MaySubmit(w1, p.v, p.op) && MayHear(DoSubmit(env, w1, p.v, p.op), p.v)
    ensures var w' := DoHear(DoSubmit(env, w1, p.v, p.op), p.v);
            && Deleted(env, w, w', p) && HasErased(w, w', p, p.asker.d)
            && forall d :: d in w0.devices && d != p.asker.d ==> d in w'.devices && w'.devices[d] == w0.devices[d]
  {
    hide Decodes, Backs, InLog, EraseEntries, AcceptsOf, AcceptsFrom, AcceptOf, Takes, EnvOk, CanAgree, MayStart, OthersSoFar, DoSubmit, DoHear, MayHear;
    MaySubmitNow(env, w, w0, w1, p, qs);
    var order := OrderOf(DeviceOf(w1, p.v, p.op), p.op, RowSeen(w1, p.v, p.op));
    assert Due(env.relay, w1.archives, p.c, order, w1.clock);
    AgreementSuffices(env, w1, p.v, p.op);
    SubmitFrame(env, w1, p.v, p.op);
    WipedIsEmpty(w1.devices[p.asker.d].chats[p.c]);
    var w' := DoHear(DoSubmit(env, w1, p.v, p.op), p.v);
    assert Deleted(env, w, w', p);
    assert HasErased(w, w', p, p.asker.d);
  }

  lemma WipedIsEmpty(chat: Chat)
    ensures IsEmpty(Wiped(chat))
  {
  }

  lemma MaySubmitNow(env: Env, w: World, w0: World, w1: World, p: Plan, qs: seq<Party>)
    requires EnvOk(env) && CanAll(env, w, p, qs) && Ready(env, w, p, qs) && SoFar(env, w, w0, p, qs)
    requires w1 == w0.(views := w0.views[p.v := View(p.asker.d, w0.devices[p.asker.d].rows, p.asker.now)])
    ensures MaySubmit(w1, p.v, p.op) && RowSeen(w1, p.v, p.op) == RowFor(p, Accepted) == DeviceOf(w1, p.v, p.op).rows[p.op]
    ensures var order := OrderOf(DeviceOf(w1, p.v, p.op), p.op, RowSeen(w1, p.v, p.op));
            && SignedIn(env, w1, p.asker.d, p.c) && Decodes(order) && order.entries == p.entries && order.expires == Expires(p) && order.scope == p.scope
            && InputOf(env.relay, p.c, order) == InputFor(env, p)
            && forall m :: m in w1.archives[p.c].members ==> Backs(order.signatures, InputOf(env.relay, p.c, order), m)
  {
    hide Backs, InLog, AcceptsFrom, AcceptOf, Takes, EnvOk;
    var signatures := [AcceptOf(env, p, p.asker)] + AcceptsFrom(env, p, qs);
    assert AcceptsOf(w1.devices[p.asker.d], p.op) == signatures && |signatures| == 1 + |qs| by { FromAll(env, p, qs); }
    AllApart(env, p, qs);
    hide OneEach, AcceptsOf;
    Starts(w, p);
    forall m | m in w1.archives[p.c].members ensures Backs(signatures, InputFor(env, p), m) { EachBacks(env, p, qs, m); }
  }

  lemma FromAll(env: Env, p: Plan, qs: seq<Party>)
    ensures |AcceptsFrom(env, p, qs)| == |qs|
  {
  }

  lemma SubmitThenHear(env: Env, w: World, v: nat, op: Bytes)
    requires MaySubmit(w, v, op) && MayHear(DoSubmit(env, w, v, op), v)
    ensures Do(env, Do(env, w, Submit(v, op)), Hear(v)) == DoHear(DoSubmit(env, w, v, op), v)
  {
    hide MaySubmit, DoSubmit, DoHear;
  }

  // What else a submission that succeeds leaves as it is.
  lemma SubmitFrame(env: Env, w: World, v: nat, op: Bytes)
    requires MaySubmit(w, v, op) && SignedIn(env, w, w.views[v].d, RowSeen(w, v, op).conv)
    requires Due(env.relay, w.archives, RowSeen(w, v, op).conv, OrderOf(DeviceOf(w, v, op), op, RowSeen(w, v, op)), w.clock)
    requires RowSeen(w, v, op) == DeviceOf(w, v, op).rows[op]
    ensures var w1, d, c, order := DoSubmit(env, w, v, op), w.views[v].d, RowSeen(w, v, op).conv, OrderOf(DeviceOf(w, v, op), op, RowSeen(w, v, op));
            && MayHear(w1, v)
            && var w2 := DoHear(w1, v);
               && w2.archives == CarryOut(w.archives, c, order) && w2.clock == w.clock && w2.executed == w1.executed && w2.devices.Keys == w.devices.Keys
               && (forall e :: e in w.devices && e != d ==> e in w2.devices && w2.devices[e] == w.devices[e])
               && d in w2.devices && op in w2.devices[d].rows && w2.devices[d].rows[op] == RowSeen(w, v, op).(state := Done)
  {
    hide Due, DeleteVerdict, CarryOut, AcceptsOf, SignedIn, EraseEntries, Wiped;
    VerdictExactly(env.relay, w.archives, RowSeen(w, v, op).conv, OrderOf(DeviceOf(w, v, op), op, RowSeen(w, v, op)), w.clock);
  }

  // ---- The others find out ----

  function Named(p: Plan): set<Bytes> {
    set i | 0 <= i < |p.entries| :: p.entries[i]
  }

  function Learns(p: Plan, q: Party): seq<Action> {
    [Look(p.v, q.d, q.now), Check(p.v, p.op, true, Named(p)), Hear(p.v)]
  }

  function AllLearn(p: Plan, qs: seq<Party>): seq<Action>
    decreases |qs|
  {
    if qs == [] then [] else AllLearn(p, qs[..|qs| - 1]) + Learns(p, qs[|qs| - 1])
  }

  // For entries: the device's key is registered, and it has caught up at least as far as the named ones.
  predicate HasCaughtUp(env: Env, w: World, p: Plan, q: Party) {
    && q.d in w.devices && p.c in w.devices[q.d].chats
    && (p.scope == SCOPE_ENTRIES ==>
          && p.c in w.archives && MemberOf(env, q.key) in w.archives[p.c].members
          && var chain, log := w.devices[q.d].chats[p.c].chain, w.archives[p.c].log;
             && |chain| <= |log| && (forall i :: 0 <= i < |chain| ==> chain[i] == log[i].hash)
             && forall i :: 0 <= i < |p.entries| ==> p.entries[i] in chain)
  }

  lemma SeesItGone(env: Env, w: World, w': World, p: Plan, q: Party, i: nat)
    requires HasCaughtUp(env, w, p, q) && Deleted(env, w, w', p) && p.scope == SCOPE_ENTRIES && i < |p.entries|
    ensures IsGone(w.devices[q.d].chats[p.c], w'.archives[p.c].log, Named(p), p.entries[i])
  {
    hide NumberOf;
    var chat, hash := w.devices[q.d].chats[p.c], p.entries[i];
    NumberFound(chat.chain, hash);
    var n := NumberOf(chat.chain, hash).value;
    assert w.archives[p.c].log[n - 1].hash == hash && w'.archives[p.c].log[n - 1] == LogEntry(hash, true);
  }

  lemma LearnsOne(env: Env, w: World, w0: World, p: Plan, q: Party)
    requires HasCaughtUp(env, w, p, q) && JoinedIn(w.devices[q.d], p.c) && w.devices[q.d].chats[p.c].archive.value.key == q.key && q.now < Expires(p)
    requires HasAgreed(w, w0, p, q) && Deleted(env, w, w0, p) && (p.scope == SCOPE_CHAT || p.scope == SCOPE_ENTRIES)
    ensures var w' := Run(env, w0, Learns(p, q));
            && HasErased(w, w', p, q.d) && w'.archives == w0.archives && w'.clock == w0.clock && w'.executed == w0.executed
            && w'.devices.Keys == w0.devices.Keys && forall e :: e in w0.devices && e != q.d ==> e in w'.devices && w'.devices[e] == w0.devices[e]
  {
    hide Do, Run, EraseEntries, IsGone, Named;
    var w1 := w0.(views := w0.views[p.v := View(q.d, w0.devices[q.d].rows, q.now)]);
    ThreeSteps(env, w0, Look(p.v, q.d, q.now), Check(p.v, p.op, true, Named(p)), Hear(p.v));
    LooksOnce(env, w0, p.v, q.d, q.now);
    if p.scope == SCOPE_ENTRIES {
      forall i | 0 <= i < |p.entries| ensures IsGone(w1.devices[q.d].chats[p.c], w1.archives[p.c].log, Named(p), p.entries[i]) { SeesItGone(env, w, w0, p, q, i); }
    }
    assert Visible(env, w1, p.v, p.op, Named(p));
    CheckSuffices(env, w1, p.v, p.op, Named(p));
    CheckThenHear(env, w1, p.v, p.op, Named(p));
  }

  lemma CheckThenHear(env: Env, w: World, v: nat, op: Bytes, heard: set<Bytes>)
    requires Sees(w, v, op) && MayHear(DoCheck(env, w, v, op, true, heard), v)
    ensures Do(env, Do(env, w, Check(v, op, true, heard)), Hear(v)) == DoHear(DoCheck(env, w, v, op, true, heard), v)
  {
    hide Sees, DoCheck, DoHear;
  }

  // So far these have found out.
  predicate FoundOut(env: Env, w: World, w0: World, w': World, p: Plan, done: seq<Party>) {
    && w'.archives == w0.archives && w'.clock == w0.clock && w'.executed == w0.executed && w'.devices.Keys == w0.devices.Keys
    && (forall i :: 0 <= i < |done| ==> HasErased(w, w', p, done[i].d))
    && forall d :: d in w0.devices && (forall i :: 0 <= i < |done| ==> done[i].d != d) ==> d in w'.devices && w'.devices[d] == w0.devices[d]
  }

  predicate CanLearn(env: Env, w: World, p: Plan, q: Party) {
    HasCaughtUp(env, w, p, q) && JoinedIn(w.devices[q.d], p.c) && w.devices[q.d].chats[p.c].archive.value.key == q.key && q.now < Expires(p)
  }

  lemma {:induction false} AllFoundOut(env: Env, w: World, w0: World, p: Plan, qs: seq<Party>)
    requires Deleted(env, w, w0, p) && (p.scope == SCOPE_CHAT || p.scope == SCOPE_ENTRIES) && Apart(env, qs)
    requires forall i :: 0 <= i < |qs| ==> CanLearn(env, w, p, qs[i]) && HasAgreed(w, w0, p, qs[i])
    ensures FoundOut(env, w, w0, Run(env, w0, AllLearn(p, qs)), p, qs)
    decreases |qs|
  {
    hide Run, FoundOut, Deleted, Learns, AllLearn, CanLearn, HasAgreed, Apart, Others;
    if qs == [] {
      NoneAgree(env, w0, p);
      NobodyYet(env, w, w0, p);
    } else {
      var front, q := qs[..|qs| - 1], qs[|qs| - 1];
      FrontApart(env, qs);
      AllFoundOut(env, w, w0, p, front);
      LastAgrees(env, w0, p, qs);
      NextFindsOut(env, w, w0, Run(env, w0, AllLearn(p, front)), p, front, q);
      assert front + [q] == qs;
    }
  }

  lemma NobodyYet(env: Env, w: World, w0: World, p: Plan)
    ensures FoundOut(env, w, w0, w0, p, [])
  {
  }

  lemma FrontApart(env: Env, qs: seq<Party>)
    requires Apart(env, qs) && qs != []
    ensures var front, q := qs[..|qs| - 1], qs[|qs| - 1]; Apart(env, front) && Others(env, front, q)
  {
  }

  lemma NextFindsOut(env: Env, w: World, w0: World, w1: World, p: Plan, done: seq<Party>, q: Party)
    requires FoundOut(env, w, w0, w1, p, done) && Deleted(env, w, w0, p) && (p.scope == SCOPE_CHAT || p.scope == SCOPE_ENTRIES)
    requires CanLearn(env, w, p, q) && HasAgreed(w, w0, p, q) && Others(env, done, q)
    ensures FoundOut(env, w, w0, Run(env, w1, Learns(p, q)), p, done + [q])
  {
    hide Run, EraseEntries, HasCaughtUp;
    var w', all := Run(env, w1, Learns(p, q)), done + [q];
    assert w1.devices[q.d] == w0.devices[q.d] && HasAgreed(w, w1, p, q);
    DeletedStill(env, w, w0, w1, p);
    LearnsOne(env, w, w1, p, q);
    forall i | 0 <= i < |all| ensures HasErased(w, w', p, all[i].d) { if i < |done| { assert HasErased(w, w1, p, done[i].d); } }
    forall d | d in w0.devices && (forall i :: 0 <= i < |all| ==> all[i].d != d) ensures d in w'.devices && w'.devices[d] == w0.devices[d] {
      assert all[|done|].d != d;
      forall i | 0 <= i < |done| ensures done[i].d != d { assert all[i] == done[i]; }
    }
  }

  lemma DeletedStill(env: Env, w: World, w0: World, w1: World, p: Plan)
    requires Deleted(env, w, w0, p) && w1.archives == w0.archives && w1.clock == w0.clock && w1.executed == w0.executed && w1.devices.Keys == w0.devices.Keys
    ensures Deleted(env, w, w1, p)
  {
  }

  // ---- The whole run ----

  // Someone asks; every other member is asked, agrees, and their acceptance arrives; the one who asked submits; and everyone
  // checks. Then, for any number of members, the relay has carried the order out, and every device has erased what it
  // names and marked its row done.
  lemma EveryoneDeletes(env: Env, w: World, p: Plan, qs: seq<Party>)
    requires EnvOk(env) && CanAll(env, w, p, qs) && Ready(env, w, p, qs) && forall i :: 0 <= i < |qs| ==> HasCaughtUp(env, w, p, qs[i])
    ensures var w' := Run(env, w, [Asks(p)] + AllAgree(env, p, qs) + Submits(p) + AllLearn(p, qs));
            && Deleted(env, w, w', p) && HasErased(w, w', p, p.asker.d) && forall i :: 0 <= i < |qs| ==> HasErased(w, w', p, qs[i].d)
  {
    hide Do, Run, EnvOk, HasErased, Deleted, MayStart, HasCaughtUp, Submits, AllLearn, AllAgree, Ready;
    var a, b, c := [Asks(p)] + AllAgree(env, p, qs), Submits(p), AllLearn(p, qs);
    InParts(env, w, a + b, c);
    InParts(env, w, a, b);
    InParts(env, w, [Asks(p)], AllAgree(env, p, qs));
    OneStep(env, w, Asks(p));
    AllSoFar(env, w, p, qs);
    var w1 := Run(env, w, a);
    SubmitDone(env, w, w1, p, qs);
    var w2 := Run(env, w1, b);
    Starts(w, p);
    forall i | 0 <= i < |qs| ensures CanLearn(env, w, p, qs[i]) && HasAgreed(w, w2, p, qs[i]) {
      assert CanAgree(env, w, p, qs[i]) && HasAgreed(w, w1, p, qs[i]);
    }
    AllFoundOut(env, w, w2, p, qs);
    var w' := Run(env, w2, c);
    DeletedStill(env, w, w2, w', p);
    AskerStill(w, w2, w', p);
  }

  lemma AskerStill(w: World, w2: World, w': World, p: Plan)
    requires HasErased(w, w2, p, p.asker.d) && p.asker.d in w'.devices && w'.devices[p.asker.d] == w2.devices[p.asker.d]
    ensures HasErased(w, w', p, p.asker.d)
  {
  }
}
