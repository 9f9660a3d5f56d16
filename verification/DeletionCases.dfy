/**
 Two runs from nothing: an answer that is written over, and a key let in after something was redacted without it.
 */
module DeletionCases {
  import opened Wire
  import opened SigningInputs
  import opened Deletion
  import opened DeletionProtocol
  import opened DeletionAnswers

  // ---- A refusal that becomes an expiry ----

  function NewChat(others: set<Bytes>, archive: Option<Archive>): Chat {
    Chat(others, archive, [], map[], {}, map[])
  }

  function Alone(dev: Device): map<nat, Device> {
    map[0 := dev]
  }

  // A device with a chat whose archive it has not joined yet.
  function Invited(c: Bytes, others: set<Bytes>, key: Bytes): seq<Action> {
    [AddDevice(0), AddChat(0, c, others), Grant(0, c, key)]
  }

  // The same, and nothing else.
  function OnlyInvited(c: Bytes, others: set<Bytes>, key: Bytes): World {
    Nothing().(devices := Alone(Device(map[c := NewChat(others, Some(Archive(key, false)))], map[], map[], map[])), owner := map[key := (0, c)])
  }

  lemma IsInvited(env: Env, c: Bytes, others: set<Bytes>, key: Bytes)
    ensures Run(env, Nothing(), Invited(c, others, key)) == OnlyInvited(c, others, key)
  {
    hide Run;
    var w1 := Nothing().(devices := Alone(Device(map[], map[], map[], map[])));
    assert Do(env, Nothing(), AddDevice(0)) == w1;
    ThreeSteps(env, Nothing(), AddDevice(0), AddChat(0, c, others), Grant(0, c, key));
    HasChatNow(env, w1, c, others);
    HasKeyNow(env, Do(env, w1, AddChat(0, c, others)), c, others, key);
  }

  lemma HasChatNow(env: Env, w: World, c: Bytes, others: set<Bytes>)
    requires w == Nothing().(devices := Alone(Device(map[], map[], map[], map[])))
    ensures Do(env, w, AddChat(0, c, others)) == Nothing().(devices := Alone(Device(map[c := NewChat(others, None)], map[], map[], map[])))
  {
    assert w.devices[0].chats[c := NewChat(others, None)] == map[c := NewChat(others, None)];
  }

  lemma HasKeyNow(env: Env, w: World, c: Bytes, others: set<Bytes>, key: Bytes)
    requires w == Nothing().(devices := Alone(Device(map[c := NewChat(others, None)], map[], map[], map[])))
    ensures Do(env, w, Grant(0, c, key)) == OnlyInvited(c, others, key)
  {
    assert w.owner[key := (0, c)] == map[key := (0, c)];
    var chat := NewChat(others, Some(Archive(key, false)));
    assert w.devices[0].chats[c := chat] == map[c := chat];
  }

  function Unanswered(c: Bytes, o: Bytes, expires: int): Row {
    Row(c, SCOPE_CHAT, expires, o, [], Pending)
  }

  predicate Askable(c: Bytes, op: Bytes, expires: int, now: int) {
    |c| == ARCHIVE_ID_BYTES && |op| == OP_ID_BYTES && 0 <= now < expires <= now + REQUEST_LIFETIME && expires < TWO64 / 2
  }

  lemma IsAsked(env: Env, c: Bytes, o: Bytes, key: Bytes, op: Bytes, expires: int, now: int)
    requires Askable(c, op, expires, now)
    ensures var w' := Do(env, OnlyInvited(c, {o}, key), Request(0, c, o, true, SCOPE_CHAT, op, expires, [], now));
            0 in w'.devices && w'.devices[0].rows == map[op := Unanswered(c, o, expires)]
  {
  }

  // A check and the user's call read the same row, and the user refuses first.
  lemma IsRefused(env: Env, w: World, op: Bytes, row: Row)
    requires 0 in w.devices && w.devices[0].rows == map[op := row] && row.state == Pending
    ensures var w' := Run(env, w, [Look(0, 0, row.expires), Look(1, 0, row.expires), SayNo(1, op)]);
            && HasRow(w', 0, op) && w'.devices[0].rows[op] == row.(state := Declined)
            && 0 in w'.views && w'.views[0] == View(0, map[op := row], row.expires)
  {
    hide Run, Do;
    var x := View(0, map[op := row], row.expires);
    ThreeSteps(env, w, Look(0, 0, row.expires), Look(1, 0, row.expires), SayNo(1, op));
    LooksOnce(env, w, 0, 0, row.expires);
    LooksOnce(env, w.(views := w.views[0 := x]), 1, 0, row.expires);
    var w2 := w.(views := w.views[0 := x][1 := x]);
    SaysNo(env, w2, op, row);
  }

  lemma SaysNo(env: Env, w: World, op: Bytes, row: Row)
    requires 0 in w.devices && w.devices[0].rows == map[op := row] && row.state == Pending && 1 in w.views && w.views[1].d == 0 && w.views[1].rows == map[op := row]
    ensures var w' := Do(env, w, SayNo(1, op)); HasRow(w', 0, op) && w'.devices[0].rows[op] == row.(state := Declined) && w'.views == w.views
  {
  }

  // A device is asked to delete a chat; a check is under way, and the user refuses.
  function Refusing(c: Bytes, o: Bytes, key: Bytes, op: Bytes, expires: int, now: int): seq<Action> {
    Invited(c, {o}, key) + ([Request(0, c, o, true, SCOPE_CHAT, op, expires, [], now)] + [Look(0, 0, expires), Look(1, 0, expires), SayNo(1, op)])
  }

  // The check had read the row before the refusal: the refusal ends as an expiry.
  lemma DeclinedThenExpired(env: Env, c: Bytes, o: Bytes, key: Bytes, op: Bytes, expires: int, now: int)
    requires Askable(c, op, expires, now)
    ensures var w := Run(env, Nothing(), Refusing(c, o, key, op, expires, now));
            var w' := Do(env, w, Check(0, op, false, {}));
            && HasRow(w, 0, op) && w.devices[0].rows[op].state == Declined
            && HasRow(w', 0, op) && w'.devices[0].rows[op].state == Expired
  {
    hide Run, Do, Invited, OnlyInvited;
    var asked := Request(0, c, o, true, SCOPE_CHAT, op, expires, [], now);
    var rest := [Look(0, 0, expires), Look(1, 0, expires), SayNo(1, op)];
    InParts(env, Nothing(), Invited(c, {o}, key), [asked] + rest);
    IsInvited(env, c, {o}, key);
    InParts(env, OnlyInvited(c, {o}, key), [asked], rest);
    OneStep(env, OnlyInvited(c, {o}, key), asked);
    IsAsked(env, c, o, key, op, expires, now);
    var w1 := Do(env, OnlyInvited(c, {o}, key), asked);
    IsRefused(env, w1, op, Unanswered(c, o, expires));
    Overtaken(env, Run(env, w1, rest), op, Unanswered(c, o, expires));
  }

  lemma Overtaken(env: Env, w: World, op: Bytes, row: Row)
    requires HasRow(w, 0, op) && row.state == Pending && 0 in w.views && w.views[0] == View(0, map[op := row], row.expires)
    ensures var w' := Do(env, w, Check(0, op, false, {})); HasRow(w', 0, op) && w'.devices[0].rows[op].state == Expired
  {
    hide Do;
    assert Lapses(w, 0, op);
    RowAfterStep(env, w, Check(0, op, false, {}), 0, op);
  }

  // ---- A key let in late ----

  function Archived(c: Bytes, hash: Bytes): seq<Action> {
    [Create(c, 2, 1), Join(0, c, []), Append(c, hash)]
  }

  function Sole(members: seq<Member>, log: seq<LogEntry>): RelayArchive {
    RelayArchive(members, 2, 1, log)
  }

  function Member1(c: Bytes, key: Bytes): Device {
    Device(map[c := NewChat({}, Some(Archive(key, true)))], map[], map[], map[])
  }

  lemma IsArchived(env: Env, c: Bytes, key: Bytes, hash: Bytes)
    requires |c| == ARCHIVE_ID_BYTES && Short(key)
    ensures var w' := Run(env, OnlyInvited(c, {}, key), Archived(c, hash));
            && w'.devices == Alone(Member1(c, key))
            && w'.archives == map[c := Sole([MemberOf(env, key)], [LogEntry(hash, false)])] && w'.executed == [] && w'.late == {}
  {
    hide Run, DoJoin, MayJoin, MemberOf;
    var w := OnlyInvited(c, {}, key);
    ThreeSteps(env, w, Create(c, 2, 1), Join(0, c, []), Append(c, hash));
    var w1 := w.(archives := map[c := Sole([], [])]);
    assert Do(env, w, Create(c, 2, 1)) == w1;
    HasJoined(env, c, key);
    var w2 := Do(env, w1, Join(0, c, []));
    HasAppended(env, w2, c, [MemberOf(env, key)], hash);
  }

  lemma HasJoined(env: Env, c: Bytes, key: Bytes)
    requires Short(key)
    ensures var w' := Do(env, OnlyInvited(c, {}, key).(archives := map[c := Sole([], [])]), Join(0, c, []));
            w'.devices == Alone(Member1(c, key)) && w'.archives == map[c := Sole([MemberOf(env, key)], [])] && w'.executed == [] && w'.late == {}
  {
    hide MayJoin, DoJoin, Unheard, MemberOf;
    var w := OnlyInvited(c, {}, key).(archives := map[c := Sole([], [])]);
    MayJoinNow(env, w, c, key);
    JoinInSteps(env, w, 0, c, []);
    assert w.devices[0].chats[c := NewChat({}, Some(Archive(key, true)))] == Member1(c, key).chats;
  }

  lemma MayJoinNow(env: Env, w: World, c: Bytes, key: Bytes)
    requires Short(key) && w == OnlyInvited(c, {}, key).(archives := map[c := Sole([], [])])
    ensures MayJoin(env, w, 0, c, [])
    ensures var w' := Registered(w, c, MemberOf(env, key)); w'.archives == map[c := Sole([MemberOf(env, key)], [])] && w'.late == {}
  {
    hide Spoke;
    assert !Unheard(w, c, MemberOf(env, key)) && [] + [MemberOf(env, key)] == [MemberOf(env, key)];
  }

  lemma HasAppended(env: Env, w: World, c: Bytes, members: seq<Member>, hash: Bytes)
    requires w.archives == map[c := Sole(members, [])]
    ensures Do(env, w, Append(c, hash)) == w.(archives := map[c := Sole(members, [LogEntry(hash, false)])])
  {
    assert [] + [LogEntry(hash, false)] == [LogEntry(hash, false)];
  }

  // The order for one entry, signed with this key alone.
  function Sanctioned(env: Env, c: Bytes, key: Bytes, op: Bytes, hash: Bytes): Order {
    Order(SCOPE_ENTRIES, op, REQUEST_LIFETIME, [hash], [Accept(env.sha(key), Signed(key, DeleteInput(env.relay, c, SCOPE_ENTRIES, op, REQUEST_LIFETIME, [hash])))])
  }

  function Redacts(env: Env, c: Bytes, key: Bytes, op: Bytes, hash: Bytes): seq<Action> {
    [Tick(1), Ask(0, [], c, SCOPE_ENTRIES, op, [hash], 0), SubmitOrder(c, Sanctioned(env, c, key, op, hash))]
  }

  lemma IsRedacted(env: Env, w: World, c: Bytes, key: Bytes, op: Bytes, hash: Bytes)
    requires |c| == ARCHIVE_ID_BYTES && |op| == OP_ID_BYTES && |hash| == HASH_BYTES
    requires w.devices == Alone(Member1(c, key))
    requires w.archives == map[c := Sole([MemberOf(env, key)], [LogEntry(hash, false)])] && w.executed == [] && w.late == {}
    ensures var w' := Run(env, w, Redacts(env, c, key, op, hash));
            && w'.archives == map[c := Sole([MemberOf(env, key)], [LogEntry(hash, true)])] && w'.late == {}
            && w'.executed == [Executed(InputOf(env.relay, c, Sanctioned(env, c, key, op, hash)), [MemberOf(env, key)])]
  {
    hide Run, Do, MemberOf, Sanctioned, InputOf;
    var asks, order := Ask(0, [], c, SCOPE_ENTRIES, op, [hash], 0), Sanctioned(env, c, key, op, hash);
    ThreeSteps(env, w, Tick(1), asks, SubmitOrder(c, order));
    Ticks(env, w, 1);
    IsSanctioned(env, Do(env, w, Tick(1)), c, key, op, hash);
    IsCarriedOut(env, Do(env, Do(env, w, Tick(1)), asks), c, key, op, hash);
  }

  lemma Ticks(env: Env, w: World, now: int)
    ensures Do(env, w, Tick(now)) == w.(clock := now)
  {
  }

  lemma IsSanctioned(env: Env, w: World, c: Bytes, key: Bytes, op: Bytes, hash: Bytes)
    requires |c| == ARCHIVE_ID_BYTES && |op| == OP_ID_BYTES && |hash| == HASH_BYTES
    requires w.devices == Alone(Member1(c, key))
    ensures var w' := Do(env, w, Ask(0, [], c, SCOPE_ENTRIES, op, [hash], 0));
            && (key, InputOf(env.relay, c, Sanctioned(env, c, key, op, hash))) in w'.signed
            && w'.archives == w.archives && w'.executed == w.executed && w'.late == w.late && w'.clock == w.clock
  {
    assert MayStart(w.devices[0], c, SCOPE_ENTRIES, op, [hash], 0);
  }

  lemma IsCarriedOut(env: Env, w: World, c: Bytes, key: Bytes, op: Bytes, hash: Bytes)
    requires |op| == OP_ID_BYTES && |hash| == HASH_BYTES && w.clock == 1
    requires w.archives == map[c := Sole([MemberOf(env, key)], [LogEntry(hash, false)])] && w.executed == []
    requires (key, InputOf(env.relay, c, Sanctioned(env, c, key, op, hash))) in w.signed
    ensures var order := Sanctioned(env, c, key, op, hash);
            var w' := Do(env, w, SubmitOrder(c, order));
            && w'.archives == map[c := Sole([MemberOf(env, key)], [LogEntry(hash, true)])] && w'.late == w.late && w'.clock == w.clock
            && w'.executed == [Executed(InputOf(env.relay, c, order), [MemberOf(env, key)])]
  {
    hide Encode;
    var order, log := Sanctioned(env, c, key, op, hash), [LogEntry(hash, false)];
    assert log[0].hash == hash && InLog(log, hash);
    assert SignatureOf(order.signatures, env.sha(key)) == Some(order.signatures[0].signature);
    assert MembersVerdict([MemberOf(env, key)], order.signatures, InputOf(env.relay, c, order)) == CarriedOut;
    assert DeleteVerdict(env.relay, w.archives, c, order, w.clock) == CarriedOut;
    assert Redact(log, order.entries) == [LogEntry(hash, true)];
  }

  // Two seats, one taken by the time registration closes; the one member has an entry redacted; the relay's clock goes back,
  // and the second seat is taken by someone who never agreed to that.
  lemma LateJoiner(env: Env, c: Bytes, key: Bytes, op: Bytes, hash: Bytes, m: Member)
    requires |c| == ARCHIVE_ID_BYTES && |op| == OP_ID_BYTES && |hash| == HASH_BYTES && Short(key) && m.keyHash != env.sha(key)
    ensures var w := Run(env, Nothing(), Invited(c, {}, key) + (Archived(c, hash) + Redacts(env, c, key, op, hash)));
            var w' := Do(env, Do(env, w, Tick(0)), Register(c, m));
            && c in w.archives && w.archives[c].log == [LogEntry(hash, true)] && AllHeard(w)
            && c in w'.archives && m in w'.archives[c].members && !AllHeard(w') && w'.late == {(c, m)}
  {
    hide Run, Do, Invited, OnlyInvited, Archived, Redacts, AllHeard;
    InParts(env, Nothing(), Invited(c, {}, key), Archived(c, hash) + Redacts(env, c, key, op, hash));
    IsInvited(env, c, {}, key);
    var w1 := OnlyInvited(c, {}, key);
    InParts(env, w1, Archived(c, hash), Redacts(env, c, key, op, hash));
    IsArchived(env, c, key, hash);
    var w2 := Run(env, w1, Archived(c, hash));
    IsRedacted(env, w2, c, key, op, hash);
    var w := Run(env, w2, Redacts(env, c, key, op, hash));
    IsLate(env, w, c, key, Sanctioned(env, c, key, op, hash), hash, m);
  }

  lemma IsLate(env: Env, w: World, c: Bytes, key: Bytes, o: Order, hash: Bytes, m: Member)
    requires m.keyHash != env.sha(key) && o.scope == SCOPE_ENTRIES && o.entries == [hash] && w.late == {}
    requires w.archives == map[c := Sole([MemberOf(env, key)], [LogEntry(hash, true)])]
    requires w.executed == [Executed(InputOf(env.relay, c, o), [MemberOf(env, key)])]
    ensures var w' := Do(env, Do(env, w, Tick(0)), Register(c, m));
            AllHeard(w) && c in w'.archives && m in w'.archives[c].members && !AllHeard(w') && w'.late == {(c, m)}
  {
    hide Do;
    Ticks(env, w, 0);
    OnlyOneSpoke(env, w, c, key, o, hash, m);
    var w1 := w.(clock := 0);
    assert w1.archives[c].log[0].tombstone && Unheard(w1, c, m) && MayRegister(w1, c, m) by { hide Spoke; }
    Registers(env, w1, c, m);
    assert w1.late + {(c, m)} == {(c, m)};
    RegisterHeard(w1, c, m);
  }

  lemma Registers(env: Env, w: World, c: Bytes, m: Member)
    requires MayRegister(w, c, m)
    ensures c in w.archives && Do(env, w, Register(c, m)) == Registered(w, c, m)
  {
  }

  lemma OnlyOneSpoke(env: Env, w: World, c: Bytes, key: Bytes, o: Order, hash: Bytes, m: Member)
    requires m.keyHash != env.sha(key) && o.scope == SCOPE_ENTRIES && o.entries == [hash]
    requires w.archives == map[c := Sole([MemberOf(env, key)], [LogEntry(hash, true)])]
    requires w.executed == [Executed(InputOf(env.relay, c, o), [MemberOf(env, key)])]
    ensures AllHeard(w) && AllHeard(w.(clock := 0)) && !Spoke(w.executed, c, hash, m)
  {
    var x := w.executed[0];
    assert x in w.executed && CoversEntry(x, c, hash) && Spoke(w.executed, c, hash, MemberOf(env, key));
  }
}
