/**
 Any number of devices, a relay that follows its rules, and anyone else who may send anything at all: replayed or
 altered requests, different contents under one operation ID, orders put together from other people's signatures,
 keys of their own. What nobody can do is make a signature with a key they do not hold.

 Several calls may be under way on one device at once. Each first reads the rows (`Look`), and what it then decides and
 writes goes by that copy, whatever has happened to the rows since: a check of all rows, an answer of the user, or a
 submission. An exchange with the relay and what the device does about its answer (`Hear`) are separate steps too.
 */
module DeletionProtocol {
  import opened Wire
  import opened SigningInputs
  import opened Deletion

  datatype Env = Env(relay: Bytes, sha: Bytes -> Bytes)

  ghost predicate EnvOk(env: Env) {
    |env.relay| == HASH_BYTES && forall b :: |env.sha(b)| == HASH_BYTES
  }

  // An order the relay carried out, and the keys registered at that moment.
  datatype Executed = Executed(input: Input, members: seq<Member>)

  // The rows as a call on a device read them, and when.
  datatype View = View(d: nat, rows: map<Bytes, Row>, wall: int)

  // What a call has learnt about its row, under the key it signed in with, and has not acted on yet: the order was carried
  // out, or the request has expired.
  datatype Reply = Reply(d: nat, op: Bytes, row: Row, key: Bytes, erase: bool)

  // `owner` says which device made a key, and for which chat; `signed` is every signature there is; `said` is every
  // operation a device's user asked for or said yes to. `clock` is the relay's, and `late` are the keys it registered when
  // something had been redacted without them.
  datatype World = World(devices: map<nat, Device>, archives: map<Bytes, RelayArchive>, owner: map<Bytes, (nat, Bytes)>,
                         signed: set<(Bytes, Input)>, executed: seq<Executed>, said: set<(nat, Bytes)>, clock: int, late: set<(Bytes, Member)>,
                         views: map<nat, View>, replies: map<nat, Reply>)

  datatype Action =
    | AddDevice(d: nat)
    | AddChat(d: nat, c: Bytes, others: set<Bytes>)
    | AddMessage(d: nat, c: Bytes, m: Bytes)
    | Place(d: nat, c: Bytes, m: Bytes, n: int)
    | Restart(d: nat)
    | Grant(d: nat, c: Bytes, key: Bytes)
    | Create(c: Bytes, count: nat, closes: int)
    | Tick(now: int)
    | Register(c: Bytes, member: Member)
    | Join(d: nat, c: Bytes, tokenHash: Bytes)
    | Sweep
    | Append(c: Bytes, hash: Bytes)
    | Sync(d: nat, c: Bytes)
    | Authenticate(d: nat, c: Bytes, challenge: Bytes)
    | SignAs(key: Bytes, input: Input)
    | Ask(d: nat, me: Bytes, c: Bytes, scope: int, op: Bytes, entries: seq<Bytes>, now: int)
    | Request(d: nat, c: Bytes, sender: Bytes, addressed: bool, scope: int, op: Bytes, expires: int, entries: seq<Bytes>, now: int)
    | Acceptance(d: nat, c: Bytes, sender: Bytes, addressed: bool, op: Bytes, accept: Accept)
    | Look(v: nat, d: nat, now: int)
    | SayYes(v: nat, op: Bytes)
    | SayNo(v: nat, op: Bytes)
    | Submit(v: nat, op: Bytes)
    | SubmitOrder(c: Bytes, order: Order)
    | Check(v: nat, op: Bytes, reached: bool, heard: set<Bytes>)
    | Hear(v: nat)

  // ---- One step ----

  function Put(w: World, d: nat, dev: Device): World {
    w.(devices := w.devices[d := dev])
  }

  function PutChat(w: World, d: nat, c: Bytes, chat: Chat): World
    requires d in w.devices
  {
    Put(w, d, w.devices[d].(chats := w.devices[d].chats[c := chat]))
  }

  predicate HasChat(w: World, d: nat, c: Bytes) {
    d in w.devices && c in w.devices[d].chats
  }

  predicate HasArchive(w: World, d: nat, c: Bytes) {
    HasChat(w, d, c) && w.devices[d].chats[c].archive.Some?
  }

  function MemberOf(env: Env, key: Bytes): Member {
    Member(env.sha(key), key)
  }

  // The sign-in to an archive succeeds: this device's key is registered there.
  predicate SignedIn(env: Env, w: World, d: nat, c: Bytes) {
    && HasArchive(w, d, c) && w.devices[d].chats[c].archive.value.joined
    && c in w.archives && MemberOf(env, w.devices[d].chats[c].archive.value.key) in w.archives[c].members
  }

  predicate MayRegister(w: World, c: Bytes, m: Member) {
    && c in w.archives && Registering(w.archives[c], w.clock)
    && forall i :: 0 <= i < |w.archives[c].members| ==> w.archives[c].members[i].keyHash != m.keyHash
  }

  predicate CoversChat(x: Executed, c: Bytes) {
    x.input.DeleteInput? && x.input.archiveId == c && x.input.scope == SCOPE_CHAT
  }

  predicate CoversEntry(x: Executed, c: Bytes, hash: Bytes) {
    x.input.DeleteInput? && x.input.archiveId == c && x.input.scope == SCOPE_ENTRIES && hash in x.input.entryHashes
  }

  // This key was registered when an order for this entry was carried out.
  predicate Spoke(executed: seq<Executed>, c: Bytes, hash: Bytes, m: Member) {
    exists x :: x in executed && CoversEntry(x, c, hash) && m in x.members
  }

  // The archive holds an entry that was redacted without this key.
  predicate Unheard(w: World, c: Bytes, m: Member)
    requires c in w.archives
  {
    exists i :: 0 <= i < |w.archives[c].log| && w.archives[c].log[i].tombstone && !Spoke(w.executed, c, w.archives[c].log[i].hash, m)
  }

  function Registered(w: World, c: Bytes, m: Member): World
    requires c in w.archives
  {
    w.(archives := w.archives[c := w.archives[c].(members := w.archives[c].members + [m])], late := w.late + if Unheard(w, c, m) then {(c, m)} else {})
  }

  // A signature anyone could have come by.
  predicate Known(signed: set<(Bytes, Input)>, s: Signature) {
    s.Junk? || (s.key, s.input) in signed
  }

  predicate AllKnown(signed: set<(Bytes, Input)>, accepts: seq<Accept>) {
    forall i :: 0 <= i < |accepts| ==> Known(signed, accepts[i].signature)
  }

  function Missed(chat: Chat, log: seq<LogEntry>): seq<LogEntry> {
    if |chat.chain| <= |log| then log[|chat.chain|..] else []
  }

  function HashesOf(log: seq<LogEntry>): seq<Bytes> {
    seq(|log|, i requires 0 <= i < |log| => log[i].hash)
  }

  // A catch-up: the hashes of the entries missed, and the numbers of those that are tombstones.
  function Caught(chat: Chat, log: seq<LogEntry>): Chat {
    var more := Missed(chat, log);
    chat.(chain := chat.chain + HashesOf(more),
          redacted := chat.redacted + set i | 0 <= i < |more| && more[i].tombstone :: |chat.chain| + i + 1)
  }

  function Execute(env: Env, w: World, c: Bytes, o: Order): World
    requires c in w.archives
  {
    w.(archives := CarryOut(w.archives, c, o), executed := w.executed + [Executed(InputOf(env.relay, c, o), w.archives[c].members)])
  }

  // The call has read this row.
  predicate Sees(w: World, v: nat, op: Bytes) {
    v in w.views && w.views[v].d in w.devices && op in w.views[v].rows && op in w.devices[w.views[v].d].rows
  }

  function RowSeen(w: World, v: nat, op: Bytes): Row
    requires Sees(w, v, op)
  {
    w.views[v].rows[op]
  }

  function DeviceOf(w: World, v: nat, op: Bytes): Device
    requires Sees(w, v, op)
  {
    w.devices[w.views[v].d]
  }

  function OrderOf(dev: Device, op: Bytes, r: Row): Order {
    Order(r.scope, op, r.expires, r.entries, AcceptsOf(dev, op))
  }

  predicate MaySubmit(w: World, v: nat, op: Bytes) {
    && Sees(w, v, op) && RowSeen(w, v, op).state == Accepted
    && var dev := DeviceOf(w, v, op);
       2 <= |AcceptsOf(dev, op)| && (op in dev.attempts ==> dev.attempts[op] < |AcceptsOf(dev, op)|)
  }

  function AddReply(w: World, v: nat, reply: Reply): World {
    w.(replies := w.replies[v := reply])
  }

  // try_submit_deletion, up to the relay's answer.
  function DoSubmit(env: Env, w: World, v: nat, op: Bytes): (w': World)
    requires MaySubmit(w, v, op)
    ensures w'.devices.Keys == w.devices.Keys
  {
    var d, dev, r := w.views[v].d, DeviceOf(w, v, op), RowSeen(w, v, op);
    var order := OrderOf(dev, op, r);
    var tried := dev.(attempts := dev.attempts[op := |AcceptsOf(dev, op)|]);
    if !SignedIn(env, w, d, r.conv) then Put(w, d, tried)
    else
      var verdict, key := DeleteVerdict(env.relay, w.archives, r.conv, order, w.clock), dev.chats[r.conv].archive.value.key;
      if verdict == CarriedOut then AddReply(Put(Execute(env, w, r.conv, order), d, tried), v, Reply(d, op, r, key, true))
      else if verdict == Lapsed then AddReply(Put(w, d, tried), v, Reply(d, op, r, key, false))
      else Put(w, d, tried)
  }

  predicate MayHear(w: World, v: nat) {
    v in w.replies && w.replies[v].d in w.devices && w.replies[v].op in w.devices[w.replies[v].d].rows
  }

  // The call acts on what it has learnt.
  function DoHear(w: World, v: nat): World
    requires MayHear(w, v)
  {
    var x := w.replies[v];
    var dev := w.devices[x.d];
    Put(w, x.d, if x.erase then Apply(dev, x.op) else SetState(dev, x.op, Expired)).(replies := w.replies - {v})
  }

  // For a named entry, check_deletions asks the relay unless it already knows; `heard` are the answers that arrived.
  predicate ShownGone(chat: Chat, log: seq<LogEntry>, heard: set<Bytes>, hash: Bytes) {
    var n := NumberOf(chat.chain, hash);
    n.Some? && n.value !in chat.redacted && hash in heard && 1 <= n.value <= |log| && log[n.value - 1] == LogEntry(hash, true)
  }

  predicate IsGone(chat: Chat, log: seq<LogEntry>, heard: set<Bytes>, hash: Bytes) {
    var n := NumberOf(chat.chain, hash);
    n.Some? && (n.value in chat.redacted || ShownGone(chat, log, heard, hash))
  }

  function Noted(chat: Chat, log: seq<LogEntry>, heard: set<Bytes>, entries: seq<Bytes>): Chat {
    chat.(redacted := chat.redacted + set i | 0 <= i < |entries| && ShownGone(chat, log, heard, entries[i]) :: NumberOf(chat.chain, entries[i]).value)
  }

  // What check_deletions does with one row of those it read, up to erasing; the submission it ends with is an action of
  // its own.
  function DoCheck(env: Env, w: World, v: nat, op: Bytes, reached: bool, heard: set<Bytes>): (w': World)
    requires Sees(w, v, op)
    ensures w'.devices.Keys == w.devices.Keys
  {
    var d, dev, r := w.views[v].d, DeviceOf(w, v, op), RowSeen(w, v, op);
    if r.state != Pending && r.state != Accepted then w
    else if r.expires <= w.views[v].wall then Put(w, d, SetState(dev, op, Expired))
    else if r.state != Accepted || !reached || !JoinedIn(dev, r.conv) then w
    else
      var key := dev.chats[r.conv].archive.value.key;
      if !SignedIn(env, w, d, r.conv) then
        if r.scope == SCOPE_CHAT then AddReply(w, v, Reply(d, op, r, key, true)) else w
      else if r.scope == SCOPE_CHAT then w
      else
        var chat, log := dev.chats[r.conv], w.archives[r.conv].log;
        var noted := PutChat(w, d, r.conv, Noted(chat, log, heard, r.entries));
        if forall i :: 0 <= i < |r.entries| ==> IsGone(chat, log, heard, r.entries[i]) then AddReply(noted, v, Reply(d, op, r, key, true)) else noted
  }

  function DoJoin(env: Env, w: World, d: nat, c: Bytes, tokenHash: Bytes): World
    requires HasArchive(w, d, c) && c in w.archives
  {
    var chat := w.devices[d].chats[c];
    var key := chat.archive.value.key;
    Registered(PutChat(w, d, c, chat.(archive := Some(Archive(key, true)))), c, MemberOf(env, key))
    .(signed := w.signed + {(key, JoinInput(env.relay, c, key, tokenHash))})
  }

  function DoAsk(env: Env, w: World, d: nat, me: Bytes, c: Bytes, scope: int, op: Bytes, entries: seq<Bytes>, now: int): World
    requires d in w.devices && JoinedIn(w.devices[d], c)
  {
    var dev := w.devices[d];
    var key := dev.chats[c].archive.value.key;
    var input := DeleteInput(env.relay, c, scope, op, now + REQUEST_LIFETIME, entries);
    Put(w, d, Start(dev, me, c, scope, op, entries, now, Accept(env.sha(key), Signed(key, input)))).(signed := w.signed + {(key, input)}, said := w.said + {(d, op)})
  }

  predicate MaySayYes(w: World, v: nat, op: Bytes) {
    && Sees(w, v, op) && RowSeen(w, v, op).state == Pending && w.views[v].wall < RowSeen(w, v, op).expires
    && JoinedIn(DeviceOf(w, v, op), RowSeen(w, v, op).conv)
  }

  function DoYes(env: Env, w: World, v: nat, op: Bytes): World
    requires MaySayYes(w, v, op)
  {
    var d, dev, r := w.views[v].d, DeviceOf(w, v, op), RowSeen(w, v, op);
    var key := dev.chats[r.conv].archive.value.key;
    var input := OrderInput(env.relay, op, r);
    Put(w, d, Agree(dev, op, Accept(env.sha(key), Signed(key, input)))).(signed := w.signed + {(key, input)}, said := w.said + {(d, op)})
  }

  predicate MaySayNo(w: World, v: nat, op: Bytes) {
    Sees(w, v, op) && RowSeen(w, v, op).state == Pending
  }

  // What a device does on its own.
  function DoLocal(w: World, a: Action): World {
    match a
    case AddDevice(d) => if d in w.devices then w else Put(w, d, Device(map[], map[], map[], map[]))
    case AddChat(d, c, others) =>
      if d !in w.devices || HasChat(w, d, c) then w else PutChat(w, d, c, Chat(others, None, [], map[], {}, map[]))
    case AddMessage(d, c, m) =>
      if !HasChat(w, d, c) || m in w.devices[d].chats[c].messages then w
      else var chat := w.devices[d].chats[c]; PutChat(w, d, c, chat.(messages := chat.messages[m := true]))
    case Place(d, c, m, n) =>
      if !HasChat(w, d, c) || m in w.devices[d].chats[c].placed then w
      else var chat := w.devices[d].chats[c]; PutChat(w, d, c, chat.(placed := chat.placed[m := n]))
    case Restart(d) =>
      if d !in w.devices then w
      else Put(w, d, w.devices[d].(attempts := map[])).(views := (map v | v in w.views && w.views[v].d != d :: w.views[v]),
                                                        replies := (map v | v in w.replies && w.replies[v].d != d :: w.replies[v]))
    case Look(v, d, now) => if d in w.devices then w.(views := w.views[v := View(d, w.devices[d].rows, now)]) else w
    case _ => w
  }

  // What the relay does, for anyone who asks.
  function DoRelay(w: World, a: Action): World {
    match a
    case Create(c, count, closes) =>
      if c in w.archives || |c| != ARCHIVE_ID_BYTES then w
      else w.(archives := w.archives[c := RelayArchive([], count, closes, [])])
    case Tick(now) => w.(clock := now)
    case Register(c, m) => if MayRegister(w, c, m) then Registered(w, c, m) else w
    case Sweep =>
      w.(archives := map c | c in w.archives && !(w.archives[c].closes <= w.clock && w.archives[c].members == []) :: w.archives[c])
    case Append(c, hash) =>
      if c in w.archives then w.(archives := w.archives[c := w.archives[c].(log := w.archives[c].log + [LogEntry(hash, false)])]) else w
    case _ => w
  }

  predicate MayJoin(env: Env, w: World, d: nat, c: Bytes, tokenHash: Bytes) {
    && HasArchive(w, d, c) && !w.devices[d].chats[c].archive.value.joined && Short(tokenHash) && Short(w.devices[d].chats[c].archive.value.key)
    && MayRegister(w, c, MemberOf(env, w.devices[d].chats[c].archive.value.key))
  }

  // What a device does with the relay about a chat's archive.
  function DoArchive(env: Env, w: World, a: Action): World {
    match a
    case Grant(d, c, key) =>
      if !HasChat(w, d, c) || HasArchive(w, d, c) || key in w.owner || exists s :: s in w.signed && s.0 == key then w
      else PutChat(w, d, c, w.devices[d].chats[c].(archive := Some(Archive(key, false)))).(owner := w.owner[key := (d, c)])
    case Join(d, c, tokenHash) => if MayJoin(env, w, d, c, tokenHash) then DoJoin(env, w, d, c, tokenHash) else w
    case Sync(d, c) =>
      if SignedIn(env, w, d, c) then PutChat(w, d, c, Caught(w.devices[d].chats[c], w.archives[c].log)) else w
    case _ => w
  }

  // Other signatures: a device's, for a sign-in, and anyone's, with a key of their own.
  function DoSign(env: Env, w: World, a: Action): World {
    match a
    case Authenticate(d, c, challenge) =>
      if HasArchive(w, d, c) && |c| == ARCHIVE_ID_BYTES && Short(challenge) then
        var key := w.devices[d].chats[c].archive.value.key;
        w.(signed := w.signed + {(key, ArchiveAuthInput(challenge, env.relay, c, env.sha(key)))})
      else w
    case SignAs(key, input) => if key in w.owner || !Fits(input) then w else w.(signed := w.signed + {(key, input)})
    case _ => w
  }

  // Asking and answering.
  function DoAnswer(env: Env, w: World, a: Action): World {
    match a
    case Ask(d, me, c, scope, op, entries, now) =>
      if d in w.devices && MayStart(w.devices[d], c, scope, op, entries, now) && |c| == ARCHIVE_ID_BYTES && 0 <= now < TWO64 / 4
      then DoAsk(env, w, d, me, c, scope, op, entries, now) else w
    case Request(d, c, sender, addressed, scope, op, expires, entries, now) =>
      if d in w.devices && |c| == ARCHIVE_ID_BYTES && 0 <= now && 0 <= expires < TWO64
      then Put(w, d, ReceiveRequest(w.devices[d], c, sender, addressed, scope, op, expires, entries, now)) else w
    case Acceptance(d, c, sender, addressed, op, accept) =>
      if d in w.devices && Known(w.signed, accept.signature) then Put(w, d, ReceiveAccept(w.devices[d], c, sender, addressed, op, accept)) else w
    case SayYes(v, op) => if MaySayYes(w, v, op) then DoYes(env, w, v, op) else w
    case SayNo(v, op) => if MaySayNo(w, v, op) then Put(w, w.views[v].d, SetState(DeviceOf(w, v, op), op, Declined)) else w
    case _ => w
  }

  // Deleting.
  function DoDelete(env: Env, w: World, a: Action): World {
    match a
    case Submit(v, op) => if MaySubmit(w, v, op) then DoSubmit(env, w, v, op) else w
    case SubmitOrder(c, order) =>
      if c in w.archives && AllKnown(w.signed, order.signatures) && DeleteVerdict(env.relay, w.archives, c, order, w.clock) == CarriedOut
      then Execute(env, w, c, order) else w
    case Check(v, op, reached, heard) => if Sees(w, v, op) then DoCheck(env, w, v, op, reached, heard) else w
    case Hear(v) => if MayHear(w, v) then DoHear(w, v) else w
    case _ => w
  }

  predicate Deleting(a: Action) {
    a.Submit? || a.SubmitOrder? || a.Check? || a.Hear?
  }

  predicate Answering(a: Action) {
    a.Ask? || a.Request? || a.Acceptance? || a.SayYes? || a.SayNo?
  }

  predicate Local(a: Action) {
    a.AddDevice? || a.AddChat? || a.AddMessage? || a.Place? || a.Restart? || a.Look?
  }

  predicate Archiving(a: Action) {
    a.Grant? || a.Join? || a.Sync?
  }

  predicate Signing(a: Action) {
    a.Authenticate? || a.SignAs?
  }

  function Do(env: Env, w: World, a: Action): World {
    if Deleting(a) then DoDelete(env, w, a)
    else if Answering(a) then DoAnswer(env, w, a)
    else if Local(a) then DoLocal(w, a)
    else if Archiving(a) then DoArchive(env, w, a)
    else if Signing(a) then DoSign(env, w, a)
    else DoRelay(w, a)
  }

  function Run(env: Env, w: World, actions: seq<Action>): World
    decreases |actions|
  {
    if actions == [] then w else Run(env, Do(env, w, actions[0]), actions[1..])
  }

  function Nothing(): World {
    World(map[], map[], map[], {}, [], {}, 0, {}, map[], map[])
  }

  // ---- Runs in parts ----

  lemma {:induction false} InParts(env: Env, w: World, first: seq<Action>, rest: seq<Action>)
    ensures Run(env, w, first + rest) == Run(env, Run(env, w, first), rest)
    decreases |first|
  {
    if first == [] {
      assert first + rest == rest;
    } else {
      hide Do;
      assert (first + rest)[1..] == first[1..] + rest;
      InParts(env, Do(env, w, first[0]), first[1..], rest);
    }
  }

  lemma OneStep(env: Env, w: World, a: Action)
    ensures Run(env, w, [a]) == Do(env, w, a)
  {
    hide Do;
    assert [a][1..] == [] && Run(env, w, [a]) == Run(env, Do(env, w, a), []);
  }

  lemma ThreeSteps(env: Env, w: World, a: Action, b: Action, c: Action)
    ensures Run(env, w, [a, b, c]) == Do(env, Do(env, Do(env, w, a), b), c)
  {
    hide Do;
    var w1, w2 := Do(env, w, a), Do(env, Do(env, w, a), b);
    assert [a, b, c][1..] == [b, c] && [b, c][1..] == [c] && [c][1..] == [];
    assert Run(env, w, [a, b, c]) == Run(env, w1, [b, c]) == Run(env, w2, [c]) == Run(env, Do(env, w2, c), []);
  }

  lemma LooksOnce(env: Env, w: World, v: nat, d: nat, now: int)
    requires d in w.devices
    ensures Do(env, w, Look(v, d, now)) == w.(views := w.views[v := View(d, w.devices[d].rows, now)])
  {
  }

  // ---- What every step keeps ----

  // An order for the whole chat was carried out when this key was registered for it.
  predicate DeletedWith(executed: seq<Executed>, c: Bytes, m: Member) {
    exists x :: x in executed && CoversChat(x, c) && m in x.members
  }

  predicate EntryDeleted(executed: seq<Executed>, c: Bytes, hash: Bytes) {
    exists x :: x in executed && CoversEntry(x, c, hash)
  }

  // An order for this entry was carried out, and this key was registered then, unless it was registered late.
  predicate EntryDeletedWith(executed: seq<Executed>, late: set<(Bytes, Member)>, c: Bytes, hash: Bytes, m: Member) {
    EntryDeleted(executed, c, hash) && ((c, m) in late || Spoke(executed, c, hash, m))
  }

  predicate Standing(archives: map<Bytes, RelayArchive>, executed: seq<Executed>, c: Bytes, m: Member) {
    (c in archives && m in archives[c].members) || DeletedWith(executed, c, m)
  }

  // The device that holds a key has, for everything it signed with it as an order, a row with exactly that order,
  // which its user asked for or said yes to.
  predicate Agreed(w: World, owner: (nat, Bytes), input: Input)
    requires input.DeleteInput?
  {
    && owner.0 in w.devices && input.archiveId == owner.1 && input.opId in w.devices[owner.0].rows && (owner.0, input.opId) in w.said
    && var r := w.devices[owner.0].rows[input.opId];
       OrderInput(input.relayId, input.opId, r) == input && r.state != Pending
  }

  predicate SignatureOk(w: World, s: (Bytes, Input)) {
    Fits(s.1) && (s.0 in w.owner && s.1.DeleteInput? ==> Agreed(w, w.owner[s.0], s.1))
  }

  predicate FullySigned(signed: set<(Bytes, Input)>, x: Executed) {
    x.input.DeleteInput? && forall m :: m in x.members ==> (m.key, x.input) in signed
  }

  // The same, for some key this device has had for this chat.
  predicate HadSay(env: Env, w: World, d: nat, c: Bytes, hash: Bytes) {
    exists key :: key in w.owner && w.owner[key] == (d, c) && EntryDeletedWith(w.executed, w.late, c, hash, MemberOf(env, key))
  }

  predicate RedactedOk(env: Env, w: World, d: nat, c: Bytes, chat: Chat, n: int) {
    1 <= n <= |chat.chain| && HadSay(env, w, d, c, chat.chain[n - 1])
  }

  predicate ChatOk(env: Env, w: World, d: nat, c: Bytes, chat: Chat) {
    && (chat.archive.Some? ==> chat.archive.value.key in w.owner && w.owner[chat.archive.value.key] == (d, c))
    && (chat.archive.Some? && chat.archive.value.joined ==> Standing(w.archives, w.executed, c, MemberOf(env, chat.archive.value.key)))
    && (forall n :: n in chat.redacted ==> RedactedOk(env, w, d, c, chat, n))
  }

  predicate RowOk(op: Bytes, r: Row) {
    ValidOrder(r.scope, op, r.entries) && 0 <= r.expires < TWO64 && |r.conv| == ARCHIVE_ID_BYTES
  }

  // No row is accepted or carried out without its user's word.
  predicate Willing(said: set<(nat, Bytes)>, d: nat, op: Bytes, r: Row) {
    r.state == Accepted || r.state == Done ==> (d, op) in said
  }

  // What a row asks for was carried out, by orders this device had a say in: for the whole chat, under this key.
  predicate CarriedWith(env: Env, w: World, d: nat, r: Row, key: Bytes) {
    && key in w.owner && w.owner[key] == (d, r.conv)
    && if r.scope == SCOPE_CHAT then DeletedWith(w.executed, r.conv, MemberOf(env, key))
       else forall i :: 0 <= i < |r.entries| ==> HadSay(env, w, d, r.conv, r.entries[i])
  }

  predicate Carried(env: Env, w: World, d: nat, r: Row) {
    r.state == Done ==> exists key :: key in w.owner && CarriedWith(env, w, d, r, key)
  }

  predicate DeviceOk(env: Env, w: World, d: nat, dev: Device) {
    && (forall c :: c in dev.chats ==> ChatOk(env, w, d, c, dev.chats[c]))
    && (forall op :: op in dev.rows ==> RowOk(op, dev.rows[op]) && Willing(w.said, d, op, dev.rows[op]) && Carried(env, w, d, dev.rows[op]))
    && (forall op :: op in dev.accepts ==> AllKnown(w.signed, dev.accepts[op]))
  }

  // A redacted entry was signed away by everyone there is, except those registered late.
  predicate RelayOk(archives: map<Bytes, RelayArchive>, executed: seq<Executed>, late: set<(Bytes, Member)>, c: Bytes)
    requires c in archives
  {
    && |c| == ARCHIVE_ID_BYTES
    && forall i :: 0 <= i < |archives[c].log| && archives[c].log[i].tombstone ==> TombstoneOk(archives[c].members, executed, late, c, archives[c].log[i].hash)
  }

  predicate TombstoneOk(members: seq<Member>, executed: seq<Executed>, late: set<(Bytes, Member)>, c: Bytes, hash: Bytes) {
    EntryDeleted(executed, c, hash) && forall m :: m in members ==> EntryDeletedWith(executed, late, c, hash, m)
  }

  predicate SameOrder(r: Row, r': Row) {
    r'.(state := r.state) == r
  }

  // Every row a call read is still there, for the same order, and none was accepted without its user's word.
  predicate ViewOk(w: World, x: View) {
    && x.d in w.devices
    && forall op :: op in x.rows ==>
         op in w.devices[x.d].rows && SameOrder(x.rows[op], w.devices[x.d].rows[op]) && Willing(w.said, x.d, op, x.rows[op])
  }

  // A call only comes to erase what its user agreed to and an order this device had a say in has deleted.
  predicate ReplyOk(env: Env, w: World, x: Reply) {
    && x.d in w.devices && x.op in w.devices[x.d].rows && SameOrder(x.row, w.devices[x.d].rows[x.op])
    && x.row.state == Accepted && (x.d, x.op) in w.said
    && (x.erase ==> CarriedWith(env, w, x.d, x.row, x.key))
  }

  ghost predicate Inv(env: Env, w: World) {
    && (forall s :: s in w.signed ==> SignatureOk(w, s))
    && (forall x :: x in w.executed ==> FullySigned(w.signed, x))
    && (forall d :: d in w.devices ==> DeviceOk(env, w, d, w.devices[d]))
    && (forall c :: c in w.archives ==> RelayOk(w.archives, w.executed, w.late, c))
    && (forall v :: v in w.views ==> ViewOk(w, w.views[v]))
    && (forall v :: v in w.replies ==> ReplyOk(env, w, w.replies[v]))
  }

  // ---- What a row may do ----

  // What a row asks never changes, and once it is answered it stays answered, one way or another.
  predicate RowStep(r: Row, r': Row) {
    SameOrder(r, r') && (r'.state == Pending ==> r.state == Pending)
  }

  predicate RowsStep(dev: Device, dev': Device) {
    forall op :: op in dev.rows ==> op in dev'.rows && RowStep(dev.rows[op], dev'.rows[op])
  }

  predicate DevicesStep(devices: map<nat, Device>, devices': map<nat, Device>) {
    forall d :: d in devices ==> d in devices' && RowsStep(devices[d], devices'[d])
  }

  // ---- Frames ----

  predicate ArchivesStep(w: World, w': World) {
    forall c, m :: c in w.archives && m in w.archives[c].members ==> Standing(w'.archives, w'.executed, c, m)
  }

  predicate Grows(w: World, w': World) {
    && w.signed <= w'.signed && w.executed <= w'.executed && w.said <= w'.said && w.late <= w'.late
    && (forall k :: k in w.owner ==> k in w'.owner && w'.owner[k] == w.owner[k])
    && ArchivesStep(w, w')
  }

  lemma InGrown(executed: seq<Executed>, executed': seq<Executed>, x: Executed)
    requires executed <= executed' && x in executed
    ensures x in executed'
  {
  }

  lemma SpokeMore(executed: seq<Executed>, executed': seq<Executed>, c: Bytes, hash: Bytes, m: Member)
    requires executed <= executed'
    ensures Spoke(executed, c, hash, m) ==> Spoke(executed', c, hash, m)
    ensures EntryDeleted(executed, c, hash) ==> EntryDeleted(executed', c, hash)
  {
    if Spoke(executed, c, hash, m) {
      var x :| x in executed && CoversEntry(x, c, hash) && m in x.members;
      InGrown(executed, executed', x);
    }
    if EntryDeleted(executed, c, hash) {
      var x :| x in executed && CoversEntry(x, c, hash);
      InGrown(executed, executed', x);
    }
  }

  lemma HadSayMore(env: Env, w: World, w': World, d: nat, c: Bytes, hash: Bytes)
    requires Grows(w, w') && HadSay(env, w, d, c, hash)
    ensures HadSay(env, w', d, c, hash)
  {
    hide Spoke, EntryDeleted, ArchivesStep;
    var key :| key in w.owner && w.owner[key] == (d, c) && EntryDeletedWith(w.executed, w.late, c, hash, MemberOf(env, key));
    SpokeMore(w.executed, w'.executed, c, hash, MemberOf(env, key));
    assert EntryDeletedWith(w'.executed, w'.late, c, hash, MemberOf(env, key));
  }

  lemma DeletedMore(executed: seq<Executed>, executed': seq<Executed>, c: Bytes, m: Member)
    requires executed <= executed' && DeletedWith(executed, c, m)
    ensures DeletedWith(executed', c, m)
  {
    var x :| x in executed && CoversChat(x, c) && m in x.members;
    InGrown(executed, executed', x);
  }

  lemma StandingMore(w: World, w': World, c: Bytes, m: Member)
    requires Grows(w, w') && Standing(w.archives, w.executed, c, m)
    ensures Standing(w'.archives, w'.executed, c, m)
  {
    if !(c in w.archives && m in w.archives[c].members) { DeletedMore(w.executed, w'.executed, c, m); }
  }

  lemma ChatFrame(env: Env, w: World, w': World, d: nat, c: Bytes, chat: Chat)
    requires ChatOk(env, w, d, c, chat) && Grows(w, w')
    ensures ChatOk(env, w', d, c, chat)
  {
    hide Standing, HadSay, MemberOf, ArchivesStep;
    if chat.archive.Some? && chat.archive.value.joined { StandingMore(w, w', c, MemberOf(env, chat.archive.value.key)); }
    forall n | n in chat.redacted ensures RedactedOk(env, w', d, c, chat, n) {
      assert RedactedOk(env, w, d, c, chat, n);
      HadSayMore(env, w, w', d, c, chat.chain[n - 1]);
    }
  }

  lemma CarriedWithMore(env: Env, w: World, w': World, d: nat, r: Row, key: Bytes)
    requires Grows(w, w') && CarriedWith(env, w, d, r, key)
    ensures CarriedWith(env, w', d, r, key)
  {
    hide HadSay, DeletedWith, ArchivesStep;
    if r.scope == SCOPE_CHAT {
      DeletedMore(w.executed, w'.executed, r.conv, MemberOf(env, key));
    } else {
      forall i | 0 <= i < |r.entries| ensures HadSay(env, w', d, r.conv, r.entries[i]) { HadSayMore(env, w, w', d, r.conv, r.entries[i]); }
    }
  }

  lemma CarriedMore(env: Env, w: World, w': World, d: nat, r: Row)
    requires Grows(w, w') && Carried(env, w, d, r)
    ensures Carried(env, w', d, r)
  {
    hide CarriedWith, ArchivesStep;
    if r.state == Done {
      var key :| key in w.owner && CarriedWith(env, w, d, r, key);
      CarriedWithMore(env, w, w', d, r, key);
    }
  }

  lemma DeviceFrame(env: Env, w: World, w': World, d: nat, dev: Device)
    requires DeviceOk(env, w, d, dev) && Grows(w, w')
    ensures DeviceOk(env, w', d, dev)
  {
    hide ChatOk, ArchivesStep, RowOk, Carried;
    forall op | op in dev.rows ensures Carried(env, w', d, dev.rows[op]) { CarriedMore(env, w, w', d, dev.rows[op]); }
    forall c | c in dev.chats ensures ChatOk(env, w', d, c, dev.chats[c]) { ChatFrame(env, w, w', d, c, dev.chats[c]); }
  }

  lemma AgreedFrame(w: World, w': World, owner: (nat, Bytes), input: Input)
    requires input.DeleteInput? && Agreed(w, owner, input) && DevicesStep(w.devices, w'.devices) && w.said <= w'.said
    ensures Agreed(w', owner, input)
  {
    assert RowStep(w.devices[owner.0].rows[input.opId], w'.devices[owner.0].rows[input.opId]);
  }

  lemma SignatureFrame(w: World, w': World, s: (Bytes, Input))
    requires SignatureOk(w, s) && DevicesStep(w.devices, w'.devices) && Grows(w, w')
    requires s.0 in w'.owner ==> s.0 in w.owner || !s.1.DeleteInput?
    ensures SignatureOk(w', s)
  {
    hide Fits, ArchivesStep;
    if s.0 in w'.owner && s.1.DeleteInput? { AgreedFrame(w, w', w.owner[s.0], s.1); }
  }

  lemma ViewFrame(w: World, w': World, x: View)
    requires ViewOk(w, x) && DevicesStep(w.devices, w'.devices) && w.said <= w'.said
    ensures ViewOk(w', x)
  {
    forall op | op in x.rows ensures op in w'.devices[x.d].rows && SameOrder(x.rows[op], w'.devices[x.d].rows[op]) {
      RowMoves(w.devices, w'.devices, x.d, op);
    }
  }

  lemma ReplyFrame(env: Env, w: World, w': World, x: Reply)
    requires ReplyOk(env, w, x) && DevicesStep(w.devices, w'.devices) && Grows(w, w')
    ensures ReplyOk(env, w', x)
  {
    hide CarriedWith, ArchivesStep, DevicesStep;
    RowMoves(w.devices, w'.devices, x.d, x.op);
    if x.erase { CarriedWithMore(env, w, w', x.d, x.row, x.key); }
  }

  lemma RowMoves(devices: map<nat, Device>, devices': map<nat, Device>, d: nat, op: Bytes)
    requires DevicesStep(devices, devices') && d in devices && op in devices[d].rows
    ensures d in devices' && op in devices'[d].rows && RowStep(devices[d].rows[op], devices'[d].rows[op])
  {
    hide RowStep;
    assert RowsStep(devices[d], devices'[d]);
  }

  lemma InvStep(env: Env, w: World, w': World)
    requires Inv(env, w) && Grows(w, w') && DevicesStep(w.devices, w'.devices)
    requires forall s :: s in w'.signed ==> (s in w.signed && (s.0 in w'.owner ==> s.0 in w.owner)) || SignatureOk(w', s)
    requires forall x :: x in w'.executed ==> x in w.executed || FullySigned(w'.signed, x)
    requires forall d :: d in w'.devices ==> (d in w.devices && w'.devices[d] == w.devices[d]) || DeviceOk(env, w', d, w'.devices[d])
    requires forall c :: c in w'.archives ==> RelayOk(w'.archives, w'.executed, w'.late, c)
    requires forall v :: v in w'.views ==> (v in w.views && w'.views[v] == w.views[v]) || ViewOk(w', w'.views[v])
    requires forall v :: v in w'.replies ==> (v in w.replies && w'.replies[v] == w.replies[v]) || ReplyOk(env, w', w'.replies[v])
    ensures Inv(env, w')
  {
    hide SignatureOk, DeviceOk, RelayOk, ArchivesStep, DevicesStep, ViewOk, ReplyOk, FullySigned;
    forall s | s in w'.signed ensures SignatureOk(w', s) {
      if !SignatureOk(w', s) { SignatureFrame(w, w', s); }
    }
    forall x | x in w'.executed ensures FullySigned(w'.signed, x) { if x in w.executed { SignedFrame(w.signed, w'.signed, x); } }
    forall d | d in w'.devices ensures DeviceOk(env, w', d, w'.devices[d]) {
      if !DeviceOk(env, w', d, w'.devices[d]) { DeviceFrame(env, w, w', d, w.devices[d]); }
    }
    forall v | v in w'.views ensures ViewOk(w', w'.views[v]) { if !ViewOk(w', w'.views[v]) { ViewFrame(w, w', w.views[v]); } }
    forall v | v in w'.replies ensures ReplyOk(env, w', w'.replies[v]) {
      if !ReplyOk(env, w', w'.replies[v]) { ReplyFrame(env, w, w', w.replies[v]); }
    }
  }

  lemma SignedFrame(signed: set<(Bytes, Input)>, signed': set<(Bytes, Input)>, x: Executed)
    requires FullySigned(signed, x) && signed <= signed'
    ensures FullySigned(signed', x)
  {
  }

  lemma SameRows(dev: Device)
    ensures RowsStep(dev, dev)
  {
  }

  // A step that only changes one device.
  lemma DeviceOnly(env: Env, w: World, d: nat, dev: Device)
    requires Inv(env, w) && DeviceOk(env, w, d, dev) && (d in w.devices ==> RowsStep(w.devices[d], dev))
    ensures Inv(env, Put(w, d, dev)) && DevicesStep(w.devices, Put(w, d, dev).devices)
  {
    hide SignatureOk, RelayOk, FullySigned, ChatOk, RowOk, AllKnown, RowStep, ViewOk, ReplyOk, Carried;
    var w' := Put(w, d, dev);
    assert Grows(w, w');
    forall e | e in w.devices ensures RowsStep(w.devices[e], w'.devices[e]) {
      if e != d { SameRows(w.devices[e]); }
    }
    assert DeviceOk(env, w', d, dev) by { DeviceFrame(env, w, w', d, dev); }
    InvStep(env, w, w');
  }

  lemma ChatOnly(env: Env, w: World, d: nat, c: Bytes, chat: Chat)
    requires Inv(env, w) && d in w.devices && ChatOk(env, w, d, c, chat)
    ensures Inv(env, PutChat(w, d, c, chat)) && DevicesStep(w.devices, PutChat(w, d, c, chat).devices)
  {
    hide ChatOk, RowOk, AllKnown, SignatureOk, RelayOk, FullySigned, ViewOk, ReplyOk, Carried;
    DeviceOnly(env, w, d, w.devices[d].(chats := w.devices[d].chats[c := chat]));
  }

  lemma RowsUnchanged(devices: map<nat, Device>)
    ensures DevicesStep(devices, devices)
  {
  }

  // A step of the relay alone.
  lemma RelayOnly(env: Env, w: World, w': World)
    requires Inv(env, w) && w'.devices == w.devices && w'.owner == w.owner && w'.signed == w.signed && w'.said == w.said
    requires w'.views == w.views && w'.replies == w.replies
    requires w.executed <= w'.executed && ArchivesStep(w, w') && w.late <= w'.late
    requires forall x :: x in w'.executed ==> x in w.executed || FullySigned(w.signed, x)
    requires forall c :: c in w'.archives ==>
               (c in w.archives && w'.archives[c] == w.archives[c]) || RelayOk(w'.archives, w'.executed, w'.late, c)
    ensures Inv(env, w')
  {
    hide SignatureOk, FullySigned, DeviceOk, ArchivesStep, DevicesStep, ViewOk, ReplyOk;
    forall c | c in w'.archives ensures RelayOk(w'.archives, w'.executed, w'.late, c) {
      if !RelayOk(w'.archives, w'.executed, w'.late, c) { RelayFrame(w, w', c); }
    }
    RowsUnchanged(w.devices);
    InvStep(env, w, w');
  }

  lemma TombstoneMore(w: World, w': World, members: seq<Member>, c: Bytes, hash: Bytes)
    requires w.executed <= w'.executed && w.late <= w'.late && TombstoneOk(members, w.executed, w.late, c, hash)
    ensures TombstoneOk(members, w'.executed, w'.late, c, hash)
  {
    hide Spoke, EntryDeleted;
    SpokeMore(w.executed, w'.executed, c, hash, Member([], []));
    forall m | m in members ensures EntryDeletedWith(w'.executed, w'.late, c, hash, m) { SpokeMore(w.executed, w'.executed, c, hash, m); }
  }

  lemma RelayFrame(w: World, w': World, c: Bytes)
    requires c in w.archives && c in w'.archives && w'.archives[c] == w.archives[c]
    requires RelayOk(w.archives, w.executed, w.late, c) && w.executed <= w'.executed && w.late <= w'.late
    ensures RelayOk(w'.archives, w'.executed, w'.late, c)
  {
    hide TombstoneOk;
    var log, members := w.archives[c].log, w.archives[c].members;
    forall i | 0 <= i < |log| && log[i].tombstone ensures TombstoneOk(members, w'.executed, w'.late, c, log[i].hash) {
      TombstoneMore(w, w', members, c, log[i].hash);
    }
  }

  lemma AddSignature(env: Env, w: World, key: Bytes, input: Input)
    requires Inv(env, w) && Fits(input) && (key in w.owner && input.DeleteInput? ==> Agreed(w, w.owner[key], input))
    ensures Inv(env, w.(signed := w.signed + {(key, input)}))
  {
    hide Fits, Agreed, DeviceOk, RelayOk, DevicesStep, ViewOk, ReplyOk;
    var w' := w.(signed := w.signed + {(key, input)});
    RowsUnchanged(w.devices);
    if key in w.owner && input.DeleteInput? { AgreedFrame(w, w', w.owner[key], input); }
    InvStep(env, w, w');
  }

  // ---- Carrying out an order ----

  lemma {:induction false} SignatureKnown(signed: set<(Bytes, Input)>, signatures: seq<Accept>, keyHash: Bytes)
    requires AllKnown(signed, signatures) && SignatureOf(signatures, keyHash).Some?
    ensures Known(signed, SignatureOf(signatures, keyHash).value)
    decreases |signatures|
  {
    if signatures[|signatures| - 1].keyHash != keyHash {
      SignatureKnown(signed, signatures[..|signatures| - 1], keyHash);
    }
  }

  lemma OrderFits(env: Env, c: Bytes, o: Order)
    requires EnvOk(env) && |c| == ARCHIVE_ID_BYTES && Decodes(o)
    ensures Fits(InputOf(env.relay, c, o))
  {
  }

  // The relay compares bytes, so a signature that passes for this order was made for exactly this order.
  lemma MemberSigned(env: Env, w: World, c: Bytes, o: Order, m: Member)
    requires EnvOk(env) && Inv(env, w) && |c| == ARCHIVE_ID_BYTES && Decodes(o) && AllKnown(w.signed, o.signatures)
    requires SignatureOf(o.signatures, m.keyHash).Some? && Verifies(InputOf(env.relay, c, o), SignatureOf(o.signatures, m.keyHash).value, m.key)
    ensures (m.key, InputOf(env.relay, c, o)) in w.signed
  {
    hide DeviceOk, RelayOk, FullySigned, Fits, Encode, Decodes, Agreed, ViewOk, ReplyOk;
    var s := SignatureOf(o.signatures, m.keyHash).value;
    SignatureKnown(w.signed, o.signatures, m.keyHash);
    assert SignatureOk(w, (s.key, s.input));
    OrderFits(env, c, o);
    InputsInjective(s.input, InputOf(env.relay, c, o));
  }

  lemma OrderFullySigned(env: Env, w: World, c: Bytes, o: Order)
    requires EnvOk(env) && Inv(env, w) && c in w.archives && Decodes(o) && AllKnown(w.signed, o.signatures)
    requires MembersVerdict(w.archives[c].members, o.signatures, InputOf(env.relay, c, o)) == CarriedOut
    ensures FullySigned(w.signed, Executed(InputOf(env.relay, c, o), w.archives[c].members))
  {
    hide SignatureOf, Verifies, Decodes, EnvOk, Inv, MembersVerdict;
    var input, members := InputOf(env.relay, c, o), w.archives[c].members;
    EveryoneSigned(members, o.signatures, input);
    ArchiveIdFits(env, w, c);
    forall m | m in members ensures (m.key, input) in w.signed { MemberSigned(env, w, c, o, m); }
  }

  lemma ArchiveIsOk(env: Env, w: World, c: Bytes)
    requires Inv(env, w) && c in w.archives
    ensures RelayOk(w.archives, w.executed, w.late, c)
  {
  }

  lemma RedactsOk(env: Env, w: World, c: Bytes, o: Order)
    requires Inv(env, w) && c in w.archives && o.scope == SCOPE_ENTRIES
    ensures var w' := Execute(env, w, c, o); RelayOk(w'.archives, w'.executed, w'.late, c)
  {
    hide Inv, TombstoneOk;
    var w' := Execute(env, w, c, o);
    var log, log', members := w.archives[c].log, w'.archives[c].log, w.archives[c].members;
    ArchiveIsOk(env, w, c);
    forall i | 0 <= i < |log'| && log'[i].tombstone ensures TombstoneOk(members, w'.executed, w'.late, c, log'[i].hash) {
      if log[i].tombstone { TombstoneMore(w, w', members, c, log[i].hash); } else { ExecutedNames(env, w, c, o, log[i].hash); }
    }
  }

  lemma ExecuteStands(env: Env, w: World, c: Bytes, o: Order)
    requires c in w.archives
    ensures ArchivesStep(w, Execute(env, w, c, o))
  {
    var w' := Execute(env, w, c, o);
    var x := w'.executed[|w.executed|];
    forall e, m | e in w.archives && m in w.archives[e].members ensures Standing(w'.archives, w'.executed, e, m) {
      if e == c && o.scope == SCOPE_CHAT { assert x in w'.executed && m in x.members; }
    }
  }

  lemma KeepExecute(env: Env, w: World, c: Bytes, o: Order)
    requires EnvOk(env) && Inv(env, w) && c in w.archives && AllKnown(w.signed, o.signatures)
    requires DeleteVerdict(env.relay, w.archives, c, o, w.clock) == CarriedOut
    ensures Inv(env, Execute(env, w, c, o))
  {
    hide Inv, EnvOk, MembersVerdict, FullySigned, RelayOk, ArchivesStep, InLog;
    var w' := Execute(env, w, c, o);
    OrderFullySigned(env, w, c, o);
    ExecuteStands(env, w, c, o);
    if o.scope != SCOPE_CHAT { RedactsOk(env, w, c, o); }
    RelayOnly(env, w, w');
  }

  // ---- Each action ----

  lemma KeepSync(env: Env, w: World, d: nat, c: Bytes)
    requires Inv(env, w) && SignedIn(env, w, d, c)
    ensures var w' := PutChat(w, d, c, Caught(w.devices[d].chats[c], w.archives[c].log)); Inv(env, w') && DevicesStep(w.devices, w'.devices)
  {
    hide Inv, HadSay, DevicesStep, Standing;
    var chat, log := w.devices[d].chats[c], w.archives[c].log;
    ChatIsOk(env, w, d, c);
    var after, more := Caught(chat, log), Missed(chat, log);
    forall n | n in after.redacted ensures RedactedOk(env, w, d, c, after, n) {
      if n in chat.redacted {
        assert RedactedOk(env, w, d, c, chat, n);
      } else {
        var i :| 0 <= i < |more| && more[i].tombstone && n == |chat.chain| + i + 1;
        assert after.chain[n - 1] == more[i].hash && more[i] == log[|chat.chain| + i];
        SeenRedacted(env, w, d, c, |chat.chain| + i);
      }
    }
    ChatOnly(env, w, d, c, after);
  }

  lemma ChatIsOk(env: Env, w: World, d: nat, c: Bytes)
    requires Inv(env, w) && HasChat(w, d, c)
    ensures ChatOk(env, w, d, c, w.devices[d].chats[c])
  {
    hide ChatOk, SignatureOk, FullySigned, RelayOk, RowOk, AllKnown, ViewOk, ReplyOk, Carried;
    assert DeviceOk(env, w, d, w.devices[d]);
  }

  // What a device signed in sees redacted was signed away with its own key among the signatures, unless that key was
  // registered late.
  lemma TombstoneMeans(env: Env, w: World, d: nat, c: Bytes, i: nat)
    requires Inv(env, w) && SignedIn(env, w, d, c) && i < |w.archives[c].log| && w.archives[c].log[i].tombstone
    ensures EntryDeletedWith(w.executed, w.late, c, w.archives[c].log[i].hash, MemberOf(env, w.devices[d].chats[c].archive.value.key))
  {
    hide Inv, EntryDeletedWith;
    ArchiveIsOk(env, w, c);
    assert TombstoneOk(w.archives[c].members, w.executed, w.late, c, w.archives[c].log[i].hash);
  }

  lemma SeenRedacted(env: Env, w: World, d: nat, c: Bytes, i: nat)
    requires Inv(env, w) && SignedIn(env, w, d, c) && i < |w.archives[c].log| && w.archives[c].log[i].tombstone
    ensures HadSay(env, w, d, c, w.archives[c].log[i].hash)
  {
    hide Inv, EntryDeletedWith, Standing, RedactedOk;
    TombstoneMeans(env, w, d, c, i);
    ChatIsOk(env, w, d, c);
  }

  lemma KeepRequest(env: Env, w: World, d: nat, c: Bytes, sender: Bytes, addressed: bool, scope: int, op: Bytes, expires: int, entries: seq<Bytes>, now: int)
    requires Inv(env, w) && d in w.devices && |c| == ARCHIVE_ID_BYTES && 0 <= now && 0 <= expires < TWO64
    ensures var w' := Put(w, d, ReceiveRequest(w.devices[d], c, sender, addressed, scope, op, expires, entries, now));
            Inv(env, w') && DevicesStep(w.devices, w'.devices)
  {
    hide SignatureOk, FullySigned, ChatOk, AllKnown, RelayOk, DevicesStep, ValidOrder, ViewOk, ReplyOk;
    var dev' := ReceiveRequest(w.devices[d], c, sender, addressed, scope, op, expires, entries, now);
    DeviceOnly(env, w, d, dev');
  }

  lemma AddAcceptOk(env: Env, w: World, d: nat, dev: Device, op: Bytes, a: Accept)
    requires DeviceOk(env, w, d, dev) && Known(w.signed, a.signature)
    ensures DeviceOk(env, w, d, AddAccept(dev, op, a)) && AddAccept(dev, op, a).rows == dev.rows && AddAccept(dev, op, a).chats == dev.chats
  {
    hide ChatOk, RowOk;
  }

  lemma SetStateOk(env: Env, w: World, d: nat, dev: Device, op: Bytes, state: State)
    requires DeviceOk(env, w, d, dev) && (state == Accepted || state == Done ==> (d, op) in w.said)
    requires op in dev.rows ==> Carried(env, w, d, dev.rows[op].(state := state))
    ensures DeviceOk(env, w, d, SetState(dev, op, state))
    ensures op in dev.rows && RowStep(dev.rows[op], dev.rows[op].(state := state)) ==> RowsStep(dev, SetState(dev, op, state))
  {
    hide ChatOk, AllKnown, ValidOrder, CarriedWith;
  }

  lemma KeepAcceptance(env: Env, w: World, d: nat, c: Bytes, sender: Bytes, addressed: bool, op: Bytes, a: Accept)
    requires Inv(env, w) && d in w.devices && Known(w.signed, a.signature)
    ensures var w' := Put(w, d, ReceiveAccept(w.devices[d], c, sender, addressed, op, a));
            Inv(env, w') && DevicesStep(w.devices, w'.devices)
  {
    hide SignatureOk, FullySigned, DeviceOk, RelayOk, DevicesStep, Known, ViewOk, ReplyOk;
    AddAcceptOk(env, w, d, w.devices[d], op, a);
    DeviceOnly(env, w, d, ReceiveAccept(w.devices[d], c, sender, addressed, op, a));
  }

  lemma KeepState(env: Env, w: World, d: nat, op: Bytes, state: State)
    requires Inv(env, w) && d in w.devices && op in w.devices[d].rows && state != Pending && state != Done && (state == Accepted ==> (d, op) in w.said)
    ensures var w' := Put(w, d, SetState(w.devices[d], op, state));
            Inv(env, w') && DevicesStep(w.devices, w'.devices)
  {
    hide Inv, DeviceOk, DevicesStep, RowsStep, SetState;
    DeviceIsOk(env, w, d);
    SetStateOk(env, w, d, w.devices[d], op, state);
    DeviceOnly(env, w, d, SetState(w.devices[d], op, state));
  }

  lemma KeepOwner(env: Env, w: World, key: Bytes, who: (nat, Bytes))
    requires Inv(env, w) && key !in w.owner && forall s :: s in w.signed ==> s.0 != key
    ensures Inv(env, w.(owner := w.owner[key := who]))
  {
    hide SignatureOk, FullySigned, DeviceOk, RelayOk, DevicesStep, ViewOk, ReplyOk;
    RowsUnchanged(w.devices);
    InvStep(env, w, w.(owner := w.owner[key := who]));
  }

  lemma KeepGrant(env: Env, w: World, d: nat, c: Bytes, key: Bytes)
    requires Inv(env, w) && HasChat(w, d, c) && !HasArchive(w, d, c) && key !in w.owner && forall s :: s in w.signed ==> s.0 != key
    ensures var w' := PutChat(w, d, c, w.devices[d].chats[c].(archive := Some(Archive(key, false)))).(owner := w.owner[key := (d, c)]);
            Inv(env, w') && DevicesStep(w.devices, w'.devices)
  {
    hide Inv, DevicesStep, Standing, HadSay;
    var w1 := w.(owner := w.owner[key := (d, c)]);
    KeepOwner(env, w, key, (d, c));
    var chat := w.devices[d].chats[c];
    ChatIsOk(env, w1, d, c);
    ArchiveAlike(env, w1, d, c, chat, Archive(key, false));
    ChatOnly(env, w1, d, c, chat.(archive := Some(Archive(key, false))));
    assert PutChat(w1, d, c, chat.(archive := Some(Archive(key, false)))) == PutChat(w, d, c, chat.(archive := Some(Archive(key, false)))).(owner := w.owner[key := (d, c)]);
  }

  // What is said of the redacted entries does not depend on the archive the chat has.
  lemma ArchiveAlike(env: Env, w: World, d: nat, c: Bytes, chat: Chat, a: Archive)
    requires ChatOk(env, w, d, c, chat) && a.key in w.owner && w.owner[a.key] == (d, c)
    requires a.joined ==> Standing(w.archives, w.executed, c, MemberOf(env, a.key))
    ensures ChatOk(env, w, d, c, chat.(archive := Some(a)))
  {
    hide Standing, HadSay;
    forall n | n in chat.redacted ensures RedactedOk(env, w, d, c, chat.(archive := Some(a)), n) { assert RedactedOk(env, w, d, c, chat, n); }
  }

  // Whoever is registered had a say in everything redacted, or is noted as late.
  lemma KeepRegister(env: Env, w: World, c: Bytes, m: Member)
    requires Inv(env, w) && c in w.archives
    ensures Inv(env, Registered(w, c, m))
  {
    hide Inv, TombstoneOk;
    var w' := Registered(w, c, m);
    ArchiveIsOk(env, w, c);
    var log, members := w.archives[c].log, w.archives[c].members;
    forall i | 0 <= i < |log| && log[i].tombstone ensures TombstoneOk(members + [m], w'.executed, w'.late, c, log[i].hash) {
      TombstoneMore(w, w', members, c, log[i].hash);
      OneMoreMember(w, c, m, i);
    }
    RelayOnly(env, w, w');
  }

  lemma OneMoreMember(w: World, c: Bytes, m: Member, i: nat)
    requires c in w.archives && i < |w.archives[c].log| && w.archives[c].log[i].tombstone
    requires TombstoneOk(w.archives[c].members, w.executed, Registered(w, c, m).late, c, w.archives[c].log[i].hash)
    ensures TombstoneOk(w.archives[c].members + [m], w.executed, Registered(w, c, m).late, c, w.archives[c].log[i].hash)
  {
    hide Spoke, EntryDeleted;
  }

  lemma KeepJoin(env: Env, w: World, d: nat, c: Bytes, tokenHash: Bytes)
    requires EnvOk(env) && Inv(env, w) && MayJoin(env, w, d, c, tokenHash)
    ensures Inv(env, DoJoin(env, w, d, c, tokenHash)) && DevicesStep(w.devices, DoJoin(env, w, d, c, tokenHash).devices)
  {
    hide Inv, DevicesStep, DeletedWith, HadSay, Unheard;
    var chat := w.devices[d].chats[c];
    var key := chat.archive.value.key;
    ArchiveIdFits(env, w, c);
    var w1 := Registered(w, c, MemberOf(env, key));
    KeepRegister(env, w, c, MemberOf(env, key));
    ChatIsOk(env, w1, d, c);
    var w2 := PutChat(w1, d, c, chat.(archive := Some(Archive(key, true))));
    ArchiveAlike(env, w1, d, c, chat, Archive(key, true));
    ChatOnly(env, w1, d, c, chat.(archive := Some(Archive(key, true))));
    AddSignature(env, w2, key, JoinInput(env.relay, c, key, tokenHash));
    JoinInSteps(env, w, d, c, tokenHash);
  }

  lemma JoinInSteps(env: Env, w: World, d: nat, c: Bytes, tokenHash: Bytes)
    requires HasArchive(w, d, c) && c in w.archives
    ensures var chat := w.devices[d].chats[c];
            var key := chat.archive.value.key;
            var w2 := PutChat(Registered(w, c, MemberOf(env, key)), d, c, chat.(archive := Some(Archive(key, true))));
            DoJoin(env, w, d, c, tokenHash) == w2.(signed := w2.signed + {(key, JoinInput(env.relay, c, key, tokenHash))})
  {
    hide Unheard, MemberOf;
    var chat := w.devices[d].chats[c];
    var key := chat.archive.value.key;
    var w1 := PutChat(w, d, c, chat.(archive := Some(Archive(key, true))));
    UnheardSame(w, w1, c, MemberOf(env, key));
  }

  lemma UnheardSame(w: World, w': World, c: Bytes, m: Member)
    requires w'.archives == w.archives && w'.executed == w.executed && c in w.archives
    ensures Unheard(w', c, m) == Unheard(w, c, m)
  {
    hide Spoke;
  }

  lemma ArchiveIdFits(env: Env, w: World, c: Bytes)
    requires Inv(env, w) && c in w.archives
    ensures |c| == ARCHIVE_ID_BYTES
  {
    hide Inv, TombstoneOk;
    ArchiveIsOk(env, w, c);
  }

  lemma KeepAppend(env: Env, w: World, c: Bytes, hash: Bytes)
    requires Inv(env, w) && c in w.archives
    ensures Inv(env, DoRelay(w, Append(c, hash)))
  {
    hide Inv, TombstoneOk;
    ArchiveIsOk(env, w, c);
    var w' := DoRelay(w, Append(c, hash));
    assert RelayOk(w'.archives, w'.executed, w'.late, c);
    RelayOnly(env, w, w');
  }

  lemma KeepCreate(env: Env, w: World, a: Action)
    requires Inv(env, w) && (a.Create? || a.Sweep? || a.Tick?)
    ensures Inv(env, DoRelay(w, a))
  {
    hide Inv, TombstoneOk;
    RelayOnly(env, w, DoRelay(w, a));
  }

  lemma KeepRelay(env: Env, w: World, a: Action)
    requires Inv(env, w)
    ensures var w' := DoRelay(w, a); Inv(env, w') && w'.devices == w.devices && w'.executed == w.executed
  {
    hide Inv, MayRegister, Unheard;
    match a
    case Append(c, hash) => if c in w.archives { KeepAppend(env, w, c, hash); }
    case Register(c, m) => if MayRegister(w, c, m) { IsThere(w, c, m); KeepRegister(env, w, c, m); }
    case _ => if a.Create? || a.Sweep? || a.Tick? { KeepCreate(env, w, a); }
  }

  lemma IsThere(w: World, c: Bytes, m: Member)
    requires MayRegister(w, c, m)
    ensures c in w.archives
  {
  }

  lemma KeepArchive(env: Env, w: World, a: Action)
    requires EnvOk(env) && Inv(env, w)
    ensures var w' := DoArchive(env, w, a); Inv(env, w') && DevicesStep(w.devices, w'.devices) && w'.executed == w.executed
  {
    hide Inv, EnvOk, DevicesStep, Caught, MayJoin, SignedIn;
    RowsUnchanged(w.devices);
    match a
    case Grant(d, c, key) =>
      if HasChat(w, d, c) && !HasArchive(w, d, c) && key !in w.owner && forall s :: s in w.signed ==> s.0 != key { KeepGrant(env, w, d, c, key); }
    case Join(d, c, tokenHash) => if MayJoin(env, w, d, c, tokenHash) { KeepJoin(env, w, d, c, tokenHash); }
    case Sync(d, c) => if SignedIn(env, w, d, c) { KeepSync(env, w, d, c); }
    case _ =>
  }

  // A row its user agrees to, the signature on it, and the note of that signature, one after the other.
  lemma SignRow(env: Env, w: World, d: nat, c: Bytes, op: Bytes)
    requires EnvOk(env) && Inv(env, w) && d in w.devices && JoinedIn(w.devices[d], c) && op in w.devices[d].rows
    requires w.devices[d].rows[op].conv == c && w.devices[d].rows[op].state == Accepted
    ensures var key, input := w.devices[d].chats[c].archive.value.key, OrderInput(env.relay, op, w.devices[d].rows[op]);
            var w' := w.(signed := w.signed + {(key, input)});
            Inv(env, w') && Inv(env, Put(w', d, AddAccept(w.devices[d], op, Accept(env.sha(key), Signed(key, input)))))
  {
    hide SignatureOk, FullySigned, AllKnown, RelayOk, HadSay, DeletedWith, Carried, ViewOk, ReplyOk;
    var dev := w.devices[d];
    var key, input := dev.chats[c].archive.value.key, OrderInput(env.relay, op, dev.rows[op]);
    assert RowOk(op, dev.rows[op]) && ChatOk(env, w, d, c, dev.chats[c]);
    AddSignature(env, w, key, input);
    var w' := w.(signed := w.signed + {(key, input)});
    AddAcceptOk(env, w', d, dev, op, Accept(env.sha(key), Signed(key, input)));
    SameRows(dev);
    DeviceOnly(env, w', d, AddAccept(dev, op, Accept(env.sha(key), Signed(key, input))));
  }

  lemma SayMore(env: Env, w: World, word: (nat, Bytes))
    requires Inv(env, w)
    ensures Inv(env, w.(said := w.said + {word}))
  {
    hide SignatureOk, FullySigned, DeviceOk, RelayOk, DevicesStep, ViewOk, ReplyOk;
    RowsUnchanged(w.devices);
    InvStep(env, w, w.(said := w.said + {word}));
  }

  lemma RowsAlike(w: World, devices: map<nat, Device>, d: nat, dev: Device)
    requires DevicesStep(devices, w.devices) && d in w.devices && dev.rows == w.devices[d].rows
    ensures DevicesStep(devices, Put(w, d, dev).devices)
  {
    hide RowStep;
  }

  lemma StartOk(env: Env, w: World, d: nat, dev: Device, op: Bytes, r: Row)
    requires DeviceOk(env, w, d, dev) && op !in dev.rows && RowOk(op, r) && Willing(w.said, d, op, r) && r.state != Done
    ensures DeviceOk(env, w, d, dev.(rows := dev.rows[op := r])) && RowsStep(dev, dev.(rows := dev.rows[op := r]))
  {
    hide ChatOk, AllKnown, ValidOrder;
  }

  lemma KeepAsk(env: Env, w: World, d: nat, me: Bytes, c: Bytes, scope: int, op: Bytes, entries: seq<Bytes>, now: int)
    requires EnvOk(env) && Inv(env, w) && d in w.devices && MayStart(w.devices[d], c, scope, op, entries, now)
    requires |c| == ARCHIVE_ID_BYTES && 0 <= now < TWO64 / 4
    ensures var w' := DoAsk(env, w, d, me, c, scope, op, entries, now);
            Inv(env, w') && DevicesStep(w.devices, w'.devices) && w'.executed == w.executed
  {
    hide Inv, DeviceOk, EnvOk, ValidOrder, DevicesStep, RowsStep, LiveChatRequest, AddAccept;
    var dev, row := w.devices[d], Row(c, scope, now + REQUEST_LIFETIME, me, entries, Accepted);
    var dev1 := dev.(rows := dev.rows[op := row]);
    var w0 := w.(said := w.said + {(d, op)});
    SayMore(env, w, (d, op));
    DeviceIsOk(env, w0, d);
    StartOk(env, w0, d, dev, op, row);
    DeviceOnly(env, w0, d, dev1);
    var w1 := Put(w0, d, dev1);
    SignRow(env, w1, d, c, op);
    var key, input := dev.chats[c].archive.value.key, OrderInput(env.relay, op, row);
    AcceptKeepsRows(dev1, op, Accept(env.sha(key), Signed(key, input)));
    var dev2 := AddAccept(dev1, op, Accept(env.sha(key), Signed(key, input)));
    RowsAlike(w1, w.devices, d, dev2);
    assert DoAsk(env, w, d, me, c, scope, op, entries, now) == Put(w1.(signed := w.signed + {(key, input)}), d, dev2);
  }

  // Agreeing, one thing after the other: the user's word, the row, the signature, and the note of the signature.
  lemma YesInSteps(env: Env, w: World, v: nat, op: Bytes)
    requires MaySayYes(w, v, op) && SameOrder(RowSeen(w, v, op), DeviceOf(w, v, op).rows[op])
    ensures var d, dev, r := w.views[v].d, DeviceOf(w, v, op), RowSeen(w, v, op);
            var key, input := dev.chats[r.conv].archive.value.key, OrderInput(env.relay, op, r);
            var w1 := Put(w.(said := w.said + {(d, op)}), d, SetState(dev, op, Accepted));
            && op in w1.devices[d].rows && w1.devices[d].rows[op] == dev.rows[op].(state := Accepted) && w1.devices[d].chats == dev.chats && w1.devices[d].accepts == dev.accepts
            && input == OrderInput(env.relay, op, w1.devices[d].rows[op])
            && DoYes(env, w, v, op) ==
                 Put(w1.(signed := w1.signed + {(key, input)}), d, AddAccept(w1.devices[d], op, Accept(env.sha(key), Signed(key, input))))
  {
  }

  lemma AcceptKeepsRows(dev: Device, op: Bytes, a: Accept)
    ensures AddAccept(dev, op, a).rows == dev.rows
  {
  }

  lemma KeepYes(env: Env, w: World, v: nat, op: Bytes)
    requires EnvOk(env) && Inv(env, w) && MaySayYes(w, v, op)
    ensures var w' := DoYes(env, w, v, op);
            Inv(env, w') && DevicesStep(w.devices, w'.devices) && w'.executed == w.executed
  {
    hide Inv, EnvOk, DevicesStep, DoYes, SetState, AddAccept;
    var d, dev, r := w.views[v].d, DeviceOf(w, v, op), RowSeen(w, v, op);
    SeenSame(env, w, v, op);
    var w0 := w.(said := w.said + {(d, op)});
    var w1 := Put(w0, d, SetState(dev, op, Accepted));
    SayMore(env, w, (d, op));
    KeepState(env, w0, d, op, Accepted);
    YesInSteps(env, w, v, op);
    SignRow(env, w1, d, r.conv, op);
    var key, input := dev.chats[r.conv].archive.value.key, OrderInput(env.relay, op, r);
    var dev2 := AddAccept(w1.devices[d], op, Accept(env.sha(key), Signed(key, input)));
    AcceptKeepsRows(w1.devices[d], op, Accept(env.sha(key), Signed(key, input)));
    RowsAlike(w1, w.devices, d, dev2);
  }

  lemma SeenSame(env: Env, w: World, v: nat, op: Bytes)
    requires Inv(env, w) && Sees(w, v, op)
    ensures SameOrder(RowSeen(w, v, op), DeviceOf(w, v, op).rows[op]) && Willing(w.said, w.views[v].d, op, RowSeen(w, v, op))
  {
    hide SignatureOk, FullySigned, DeviceOk, RelayOk, ReplyOk, SameOrder;
    assert ViewOk(w, w.views[v]);
  }

  lemma EraseOk(env: Env, w: World, d: nat, c: Bytes, chat: Chat, entries: seq<Bytes>)
    requires ChatOk(env, w, d, c, chat) && forall i :: 0 <= i < |entries| ==> HadSay(env, w, d, c, entries[i])
    ensures ChatOk(env, w, d, c, EraseEntries(chat, entries))
  {
    hide Standing, HadSay, NumberOf, EraseEntries;
    var after := EraseEntries(chat, entries);
    ErasesExactly(chat, entries, [], 0);
    forall n | n in after.redacted ensures RedactedOk(env, w, d, c, after, n) {
      ErasesExactly(chat, entries, [], n);
      if n in chat.redacted {
        assert RedactedOk(env, w, d, c, chat, n);
      } else {
        var i :| 0 <= i < |entries| && NumberOf(chat.chain, entries[i]) == Some(n);
        NumberFound(chat.chain, entries[i]);
      }
    }
  }

  lemma ApplyOk(env: Env, w: World, d: nat, dev: Device, op: Bytes, key: Bytes)
    requires DeviceOk(env, w, d, dev) && op in dev.rows && (d, op) in w.said && CarriedWith(env, w, d, dev.rows[op], key)
    ensures DeviceOk(env, w, d, Apply(dev, op)) && RowsStep(dev, Apply(dev, op))
  {
    hide RowOk, AllKnown, EraseEntries, HadSay, DeletedWith, Standing;
    var r := dev.rows[op];
    assert CarriedWith(env, w, d, r.(state := Done), key);
    if r.conv in dev.chats {
      var chat := dev.chats[r.conv];
      assert ChatOk(env, w, d, r.conv, chat);
      if r.scope != SCOPE_CHAT { EraseOk(env, w, d, r.conv, chat, r.entries); }
      var chat' := if r.scope == SCOPE_CHAT then Wiped(chat) else EraseEntries(chat, r.entries);
      assert ChatOk(env, w, d, r.conv, chat');
      SetStateOk(env, w, d, dev.(chats := dev.chats[r.conv := chat']), op, Done);
    } else {
      SetStateOk(env, w, d, dev, op, Done);
    }
  }

  // The call acts on what it has learnt: it erases, or notes that the request has expired.
  lemma KeepHear(env: Env, w: World, v: nat)
    requires Inv(env, w) && MayHear(w, v)
    ensures var w' := DoHear(w, v); Inv(env, w') && DevicesStep(w.devices, w'.devices) && w'.executed == w.executed
  {
    hide Inv, DeviceOk, Apply, DevicesStep, CarriedWith, SetState, RowsStep;
    var x := w.replies[v];
    var dev := w.devices[x.d];
    ReplyIsOk(env, w, v);
    if x.erase {
      DeviceIsOk(env, w, x.d);
      SameCarried(env, w, x.d, x.row, dev.rows[x.op], x.key);
      ApplyOk(env, w, x.d, dev, x.op, x.key);
      DeviceOnly(env, w, x.d, Apply(dev, x.op));
      KeepFewer(env, Put(w, x.d, Apply(dev, x.op)), v);
    } else {
      KeepState(env, w, x.d, x.op, Expired);
      KeepFewer(env, Put(w, x.d, SetState(dev, x.op, Expired)), v);
    }
  }

  lemma ReplyIsOk(env: Env, w: World, v: nat)
    requires Inv(env, w) && v in w.replies
    ensures ReplyOk(env, w, w.replies[v])
  {
  }

  lemma SameCarried(env: Env, w: World, d: nat, r: Row, r': Row, key: Bytes)
    requires CarriedWith(env, w, d, r, key) && SameOrder(r, r')
    ensures CarriedWith(env, w, d, r', key)
  {
    hide HadSay, DeletedWith;
  }

  lemma KeepFewer(env: Env, w: World, v: nat)
    requires Inv(env, w)
    ensures Inv(env, w.(replies := w.replies - {v}))
  {
    hide SignatureOk, FullySigned, DeviceOk, RelayOk, DevicesStep, ViewOk, ReplyOk;
    RowsUnchanged(w.devices);
    InvStep(env, w, w.(replies := w.replies - {v}));
  }

  lemma KeepReply(env: Env, w: World, v: nat, x: Reply)
    requires Inv(env, w) && ReplyOk(env, w, x)
    ensures Inv(env, AddReply(w, v, x))
  {
    hide SignatureOk, FullySigned, DeviceOk, RelayOk, DevicesStep, ViewOk, ReplyOk;
    var w' := AddReply(w, v, x);
    RowsUnchanged(w.devices);
    ReplyFrame(env, w, w', x);
    InvStep(env, w, w');
  }

  lemma AttemptNoted(env: Env, w: World, d: nat, dev: Device, attempts: map<Bytes, nat>)
    requires DeviceOk(env, w, d, dev)
    ensures DeviceOk(env, w, d, dev.(attempts := attempts)) && RowsStep(dev, dev.(attempts := attempts))
  {
    hide ChatOk, RowOk, AllKnown;
  }

  lemma ExecutedNames(env: Env, w: World, c: Bytes, o: Order, hash: Bytes)
    requires c in w.archives && o.scope == SCOPE_ENTRIES && hash in o.entries
    ensures var w' := Execute(env, w, c, o); TombstoneOk(w.archives[c].members, w'.executed, w'.late, c, hash)
  {
    hide CarryOut;
    var w' := Execute(env, w, c, o);
    var x := w'.executed[|w.executed|];
    assert x in w'.executed && CoversEntry(x, c, hash) && x.members == w.archives[c].members;
  }

  // Whoever was registered when an order was carried out had their say in it.
  lemma ExecutedCovers(env: Env, w: World, d: nat, o: Order, r: Row, key: Bytes)
    requires r.conv in w.archives && DeleteVerdict(env.relay, w.archives, r.conv, o, w.clock) == CarriedOut
    requires key in w.owner && w.owner[key] == (d, r.conv) && MemberOf(env, key) in w.archives[r.conv].members
    requires r.scope == o.scope && r.entries == o.entries
    ensures CarriedWith(env, Execute(env, w, r.conv, o), d, r, key)
  {
    hide EntryDeletedWith, EntryDeleted, DeleteVerdict, CarryOut;
    VerdictDecodes(env, w, r.conv, o);
    var w' := Execute(env, w, r.conv, o);
    var x := w'.executed[|w.executed|];
    assert x in w'.executed && x.input == InputOf(env.relay, r.conv, o) && MemberOf(env, key) in x.members;
    forall i | 0 <= i < |o.entries| && o.scope == SCOPE_ENTRIES ensures HadSay(env, w', d, r.conv, o.entries[i]) {
      ExecutedNames(env, w, r.conv, o, o.entries[i]);
      assert EntryDeletedWith(w'.executed, w'.late, r.conv, o.entries[i], MemberOf(env, key));
    }
  }

  lemma VerdictDecodes(env: Env, w: World, c: Bytes, o: Order)
    requires DeleteVerdict(env.relay, w.archives, c, o, w.clock) == CarriedOut
    ensures o.scope == SCOPE_CHAT || o.scope == SCOPE_ENTRIES
  {
  }

  lemma AcceptsAreKnown(env: Env, w: World, d: nat, dev: Device, op: Bytes, r: Row)
    requires DeviceOk(env, w, d, dev)
    ensures AllKnown(w.signed, OrderOf(dev, op, r).signatures)
  {
    hide ChatOk, RowOk, Carried;
  }

  // The relay carries the order out, and the call hears of it.
  lemma KeepCarried(env: Env, w: World, v: nat, op: Bytes)
    requires EnvOk(env) && Inv(env, w) && MaySubmit(w, v, op)
    requires var d, r := w.views[v].d, RowSeen(w, v, op);
             SignedIn(env, w, d, r.conv) && DeleteVerdict(env.relay, w.archives, r.conv, OrderOf(DeviceOf(w, v, op), op, r), w.clock) == CarriedOut
    ensures var w' := DoSubmit(env, w, v, op); Inv(env, w') && DevicesStep(w.devices, w'.devices) && w.executed <= w'.executed
  {
    hide Inv, EnvOk, DevicesStep, CarryOut, CarriedWith, DeviceOk, DeleteVerdict, ArchivesStep, Standing, RedactedOk;
    var d, dev, r := w.views[v].d, DeviceOf(w, v, op), RowSeen(w, v, op);
    var order, key := OrderOf(dev, op, r), dev.chats[r.conv].archive.value.key;
    var tried := dev.(attempts := dev.attempts[op := |AcceptsOf(dev, op)|]);
    var w1 := Execute(env, w, r.conv, order);
    DeviceIsOk(env, w, d);
    AcceptsAreKnown(env, w, d, dev, op, r);
    KeepExecute(env, w, r.conv, order);
    ChatIsOk(env, w, d, r.conv);
    ExecutedCovers(env, w, d, order, r, key);
    DeviceIsOk(env, w1, d);
    AttemptNoted(env, w1, d, dev, tried.attempts);
    DeviceOnly(env, w1, d, tried);
    var w2 := Put(w1, d, tried);
    SeenSame(env, w, v, op);
    CarriedSame(env, w1, w2, d, r, key);
    KeepReply(env, w2, v, Reply(d, op, r, key, true));
  }

  lemma CarriedSame(env: Env, w: World, w': World, d: nat, r: Row, key: Bytes)
    requires CarriedWith(env, w, d, r, key) && w'.owner == w.owner && w'.executed == w.executed && w'.late == w.late
    ensures CarriedWith(env, w', d, r, key)
  {
    hide EntryDeletedWith, DeletedWith;
    if r.scope != SCOPE_CHAT {
      forall i | 0 <= i < |r.entries| ensures HadSay(env, w', d, r.conv, r.entries[i]) { assert HadSay(env, w, d, r.conv, r.entries[i]); }
    }
  }

  lemma KeepSubmit(env: Env, w: World, v: nat, op: Bytes)
    requires EnvOk(env) && Inv(env, w) && MaySubmit(w, v, op)
    ensures var w' := DoSubmit(env, w, v, op);
            Inv(env, w') && DevicesStep(w.devices, w'.devices) && w.executed <= w'.executed
  {
    hide Inv, DeviceOk, EnvOk, DeleteVerdict, DevicesStep, CarryOut, CarriedWith;
    var d, dev, r := w.views[v].d, DeviceOf(w, v, op), RowSeen(w, v, op);
    var order := OrderOf(dev, op, r);
    var tried := dev.(attempts := dev.attempts[op := |AcceptsOf(dev, op)|]);
    DeviceIsOk(env, w, d);
    AttemptNoted(env, w, d, dev, tried.attempts);
    DeviceOnly(env, w, d, tried);
    if SignedIn(env, w, d, r.conv) {
      var verdict := DeleteVerdict(env.relay, w.archives, r.conv, order, w.clock);
      if verdict == CarriedOut {
        KeepCarried(env, w, v, op);
      } else if verdict == Lapsed {
        SeenSame(env, w, v, op);
        KeepReply(env, Put(w, d, tried), v, Reply(d, op, r, dev.chats[r.conv].archive.value.key, false));
      }
    }
  }

  lemma GoneEntry(env: Env, w: World, d: nat, c: Bytes, heard: set<Bytes>, hash: Bytes)
    requires Inv(env, w) && SignedIn(env, w, d, c) && IsGone(w.devices[d].chats[c], w.archives[c].log, heard, hash)
    ensures HadSay(env, w, d, c, hash)
  {
    hide Inv, NumberOf, HadSay, Standing;
    var chat, n := w.devices[d].chats[c], NumberOf(w.devices[d].chats[c].chain, hash).value;
    ChatIsOk(env, w, d, c);
    NumberFound(chat.chain, hash);
    if n in chat.redacted { assert RedactedOk(env, w, d, c, chat, n); } else { SeenRedacted(env, w, d, c, n - 1); }
  }

  lemma NotedOk(env: Env, w: World, d: nat, c: Bytes, heard: set<Bytes>, entries: seq<Bytes>)
    requires Inv(env, w) && SignedIn(env, w, d, c)
    ensures ChatOk(env, w, d, c, Noted(w.devices[d].chats[c], w.archives[c].log, heard, entries))
  {
    hide Inv, NumberOf, HadSay, Standing;
    var chat, log := w.devices[d].chats[c], w.archives[c].log;
    var after := Noted(chat, log, heard, entries);
    ChatIsOk(env, w, d, c);
    forall n | n in after.redacted ensures RedactedOk(env, w, d, c, after, n) {
      if n in chat.redacted {
        assert RedactedOk(env, w, d, c, chat, n);
      } else {
        var i :| 0 <= i < |entries| && ShownGone(chat, log, heard, entries[i]) && NumberOf(chat.chain, entries[i]).value == n;
        GoneEntry(env, w, d, c, heard, entries[i]);
        NumberFound(chat.chain, entries[i]);
      }
    }
  }

  // The sign-in to an archive this device had joined is refused only when the whole chat was deleted by agreement, and
  // this device's key was registered then.
  lemma GoneArchive(env: Env, w: World, d: nat, c: Bytes)
    requires Inv(env, w) && d in w.devices && JoinedIn(w.devices[d], c) && !SignedIn(env, w, d, c)
    ensures DeletedWith(w.executed, c, MemberOf(env, w.devices[d].chats[c].archive.value.key))
  {
    hide Inv, RedactedOk, DeletedWith;
    ChatIsOk(env, w, d, c);
  }

  lemma KeepCheck(env: Env, w: World, v: nat, op: Bytes, reached: bool, heard: set<Bytes>)
    requires Inv(env, w) && Sees(w, v, op)
    ensures var w' := DoCheck(env, w, v, op, reached, heard);
            Inv(env, w') && DevicesStep(w.devices, w'.devices) && w'.executed == w.executed
  {
    hide Inv, DevicesStep, IsGone, Noted, CarriedWith, SetState, PutChat;
    var d, dev, r := w.views[v].d, DeviceOf(w, v, op), RowSeen(w, v, op);
    RowsUnchanged(w.devices);
    SeenSame(env, w, v, op);
    if r.state != Pending && r.state != Accepted {
    } else if r.expires <= w.views[v].wall {
      KeepState(env, w, d, op, Expired);
    } else if r.state != Accepted || !reached || !JoinedIn(dev, r.conv) {
    } else if !SignedIn(env, w, d, r.conv) {
      if r.scope == SCOPE_CHAT { KeepGone(env, w, v, op); }
    } else if r.scope != SCOPE_CHAT {
      KeepNoted(env, w, v, op, heard);
    }
  }

  lemma KeepGone(env: Env, w: World, v: nat, op: Bytes)
    requires Inv(env, w) && Sees(w, v, op) && RowSeen(w, v, op).state == Accepted && RowSeen(w, v, op).scope == SCOPE_CHAT
    requires var d, r := w.views[v].d, RowSeen(w, v, op); JoinedIn(w.devices[d], r.conv) && !SignedIn(env, w, d, r.conv)
    ensures var d, r := w.views[v].d, RowSeen(w, v, op);
            Inv(env, AddReply(w, v, Reply(d, op, r, w.devices[d].chats[r.conv].archive.value.key, true)))
  {
    hide Inv, DeletedWith, RedactedOk, Standing, SignedIn;
    var d, r := w.views[v].d, RowSeen(w, v, op);
    SeenSame(env, w, v, op);
    GoneArchive(env, w, d, r.conv);
    ChatIsOk(env, w, d, r.conv);
    KeepReply(env, w, v, Reply(d, op, r, w.devices[d].chats[r.conv].archive.value.key, true));
  }

  // A row for entries whose archive can be reached.
  lemma KeepNoted(env: Env, w: World, v: nat, op: Bytes, heard: set<Bytes>)
    requires Inv(env, w) && Sees(w, v, op) && RowSeen(w, v, op).state == Accepted && RowSeen(w, v, op).scope != SCOPE_CHAT
    requires SignedIn(env, w, w.views[v].d, RowSeen(w, v, op).conv)
    ensures var d, dev, r := w.views[v].d, DeviceOf(w, v, op), RowSeen(w, v, op);
            var chat, log := dev.chats[r.conv], w.archives[r.conv].log;
            var noted := PutChat(w, d, r.conv, Noted(chat, log, heard, r.entries));
            && Inv(env, noted) && DevicesStep(w.devices, noted.devices) && noted.executed == w.executed
            && ((forall i :: 0 <= i < |r.entries| ==> IsGone(chat, log, heard, r.entries[i])) ==>
                  Inv(env, AddReply(noted, v, Reply(d, op, r, chat.archive.value.key, true))))
  {
    hide Inv, HadSay, DevicesStep, IsGone, Standing, ShownGone;
    var d, dev, r := w.views[v].d, DeviceOf(w, v, op), RowSeen(w, v, op);
    var chat, log := dev.chats[r.conv], w.archives[r.conv].log;
    var noted := PutChat(w, d, r.conv, Noted(chat, log, heard, r.entries));
    SeenSame(env, w, v, op);
    NotedOk(env, w, d, r.conv, heard, r.entries);
    ChatOnly(env, w, d, r.conv, Noted(chat, log, heard, r.entries));
    if forall i :: 0 <= i < |r.entries| ==> IsGone(chat, log, heard, r.entries[i]) {
      forall i | 0 <= i < |r.entries| ensures HadSay(env, w, d, r.conv, r.entries[i]) { GoneEntry(env, w, d, r.conv, heard, r.entries[i]); }
      ChatIsOk(env, w, d, r.conv);
      CarriedSame(env, w, noted, d, r, chat.archive.value.key);
      KeepReply(env, noted, v, Reply(d, op, r, chat.archive.value.key, true));
    }
  }

  lemma DeviceIsOk(env: Env, w: World, d: nat)
    requires Inv(env, w) && d in w.devices
    ensures DeviceOk(env, w, d, w.devices[d])
  {
  }

  lemma KeepLocal(env: Env, w: World, a: Action)
    requires Inv(env, w)
    ensures var w' := DoLocal(w, a); Inv(env, w') && DevicesStep(w.devices, w'.devices) && w'.executed == w.executed
  {
    hide Inv, DevicesStep, ChatOk, DeviceOk;
    RowsUnchanged(w.devices);
    match a
    case AddDevice(d) => if d !in w.devices { EmptyDevice(env, w, d); DeviceOnly(env, w, d, Device(map[], map[], map[], map[])); }
    case AddChat(d, c, others) => if d in w.devices { EmptyChat(env, w, d, c, others); ChatOnly(env, w, d, c, Chat(others, None, [], map[], {}, map[])); }
    case AddMessage(d, c, m) => if HasChat(w, d, c) { KeepMessage(env, w, d, c, m, 0); }
    case Place(d, c, m, n) => if HasChat(w, d, c) { KeepMessage(env, w, d, c, m, n); }
    case Restart(d) => if d in w.devices { KeepRestart(env, w, d); }
    case Look(v, d, now) => if d in w.devices { KeepLook(env, w, v, d, now); }
    case _ =>
  }

  lemma KeepLook(env: Env, w: World, v: nat, d: nat, now: int)
    requires Inv(env, w) && d in w.devices
    ensures Inv(env, w.(views := w.views[v := View(d, w.devices[d].rows, now)]))
  {
    hide SignatureOk, FullySigned, RelayOk, DevicesStep, ChatOk, RowOk, AllKnown, Carried, ReplyOk;
    var w' := w.(views := w.views[v := View(d, w.devices[d].rows, now)]);
    RowsUnchanged(w.devices);
    assert DeviceOk(env, w, d, w.devices[d]);
    assert ViewOk(w', w'.views[v]);
    InvStep(env, w, w');
  }

  lemma KeepRestart(env: Env, w: World, d: nat)
    requires Inv(env, w) && d in w.devices
    ensures var w' := DoLocal(w, Restart(d)); Inv(env, w') && DevicesStep(w.devices, w'.devices) && w'.executed == w.executed
  {
    hide SignatureOk, FullySigned, RelayOk, DevicesStep, DeviceOk, ViewOk, ReplyOk;
    var w1, w' := Put(w, d, w.devices[d].(attempts := map[])), DoLocal(w, Restart(d));
    DeviceIsOk(env, w, d);
    AttemptNoted(env, w, d, w.devices[d], map[]);
    DeviceOnly(env, w, d, w.devices[d].(attempts := map[]));
    RowsUnchanged(w1.devices);
    InvStep(env, w1, w');
  }

  lemma EmptyDevice(env: Env, w: World, d: nat)
    ensures DeviceOk(env, w, d, Device(map[], map[], map[], map[]))
  {
  }

  lemma EmptyChat(env: Env, w: World, d: nat, c: Bytes, others: set<Bytes>)
    ensures ChatOk(env, w, d, c, Chat(others, None, [], map[], {}, map[]))
  {
  }

  lemma KeepMessage(env: Env, w: World, d: nat, c: Bytes, m: Bytes, n: int)
    requires Inv(env, w) && HasChat(w, d, c)
    ensures var chat := w.devices[d].chats[c];
            var added, placed := PutChat(w, d, c, chat.(messages := chat.messages[m := true])), PutChat(w, d, c, chat.(placed := chat.placed[m := n]));
            && Inv(env, added) && DevicesStep(w.devices, added.devices) && Inv(env, placed) && DevicesStep(w.devices, placed.devices)
  {
    hide Inv, DevicesStep, Standing, HadSay;
    var chat := w.devices[d].chats[c];
    ChatIsOk(env, w, d, c);
    ChatAlike(env, w, d, c, chat, chat.(messages := chat.messages[m := true]));
    ChatAlike(env, w, d, c, chat, chat.(placed := chat.placed[m := n]));
    ChatOnly(env, w, d, c, chat.(messages := chat.messages[m := true]));
    ChatOnly(env, w, d, c, chat.(placed := chat.placed[m := n]));
  }

  lemma ChatAlike(env: Env, w: World, d: nat, c: Bytes, chat: Chat, chat': Chat)
    requires ChatOk(env, w, d, c, chat) && chat'.archive == chat.archive && chat'.chain == chat.chain && chat'.redacted == chat.redacted
    ensures ChatOk(env, w, d, c, chat')
  {
    hide Standing, HadSay;
    forall n | n in chat'.redacted ensures RedactedOk(env, w, d, c, chat', n) { assert RedactedOk(env, w, d, c, chat, n); }
  }

  lemma KeepSignature(env: Env, w: World, a: Action)
    requires EnvOk(env) && Inv(env, w)
    ensures var w' := DoSign(env, w, a); Inv(env, w') && w'.devices == w.devices && w'.executed == w.executed
  {
    hide Inv, Agreed;
    match a
    case Authenticate(d, c, challenge) =>
      if HasArchive(w, d, c) && |c| == ARCHIVE_ID_BYTES && Short(challenge) {
        var key := w.devices[d].chats[c].archive.value.key;
        AddSignature(env, w, key, ArchiveAuthInput(challenge, env.relay, c, env.sha(key)));
      }
    case SignAs(key, input) =>
      if key !in w.owner && Fits(input) { AddSignature(env, w, key, input); }
    case _ =>
  }

  lemma KeepNo(env: Env, w: World, v: nat, op: Bytes)
    requires Inv(env, w) && MaySayNo(w, v, op)
    ensures var w' := Put(w, w.views[v].d, SetState(DeviceOf(w, v, op), op, Declined));
            Inv(env, w') && DevicesStep(w.devices, w'.devices)
  {
    hide Inv, DevicesStep, SetState;
    KeepState(env, w, w.views[v].d, op, Declined);
  }

  lemma KeepAnswer(env: Env, w: World, a: Action)
    requires EnvOk(env) && Inv(env, w)
    ensures var w' := DoAnswer(env, w, a); Inv(env, w') && DevicesStep(w.devices, w'.devices) && w'.executed == w.executed
  {
    hide Inv, EnvOk, DevicesStep, ReceiveRequest, ReceiveAccept, SetState, DoAsk, DoYes, Known, MayStart, MaySayYes;
    RowsUnchanged(w.devices);
    match a
    case Ask(d, me, c, scope, op, entries, now) =>
      if d in w.devices && MayStart(w.devices[d], c, scope, op, entries, now) && |c| == ARCHIVE_ID_BYTES && 0 <= now < TWO64 / 4 {
        KeepAsk(env, w, d, me, c, scope, op, entries, now);
      }
    case Request(d, c, sender, addressed, scope, op, expires, entries, now) =>
      if d in w.devices && |c| == ARCHIVE_ID_BYTES && 0 <= now && 0 <= expires < TWO64 {
        KeepRequest(env, w, d, c, sender, addressed, scope, op, expires, entries, now);
      }
    case Acceptance(d, c, sender, addressed, op, accept) =>
      if d in w.devices && Known(w.signed, accept.signature) { KeepAcceptance(env, w, d, c, sender, addressed, op, accept); }
    case SayYes(v, op) => if MaySayYes(w, v, op) { KeepYes(env, w, v, op); }
    case SayNo(v, op) => if MaySayNo(w, v, op) { KeepNo(env, w, v, op); }
    case _ =>
  }

  lemma KeepDelete(env: Env, w: World, a: Action)
    requires EnvOk(env) && Inv(env, w)
    ensures var w' := DoDelete(env, w, a); Inv(env, w') && DevicesStep(w.devices, w'.devices) && w.executed <= w'.executed
  {
    hide Inv, EnvOk, DevicesStep, DoSubmit, DoCheck, DoHear, CarryOut, DeleteVerdict, AllKnown, MaySubmit, Sees, MayHear;
    RowsUnchanged(w.devices);
    match a
    case Submit(v, op) => if MaySubmit(w, v, op) { KeepSubmit(env, w, v, op); }
    case SubmitOrder(c, order) =>
      if c in w.archives && AllKnown(w.signed, order.signatures) && DeleteVerdict(env.relay, w.archives, c, order, w.clock) == CarriedOut {
        KeepExecute(env, w, c, order);
      }
    case Check(v, op, reached, heard) => if Sees(w, v, op) { KeepCheck(env, w, v, op, reached, heard); }
    case Hear(v) => if MayHear(w, v) { KeepHear(env, w, v); }
    case _ =>
  }

  // Every action keeps the invariant, moves rows only as a row may move, and never forgets an order carried out.
  lemma StepKeeps(env: Env, w: World, a: Action)
    requires EnvOk(env) && Inv(env, w)
    ensures var w' := Do(env, w, a);
            Inv(env, w') && DevicesStep(w.devices, w'.devices) && w.executed <= w'.executed
  {
    hide EnvOk, Inv, DevicesStep, DoLocal, DoRelay, DoArchive, DoSign, DoAnswer, DoDelete;
    RowsUnchanged(w.devices);
    if Deleting(a) { KeepDelete(env, w, a); }
    else if Answering(a) { KeepAnswer(env, w, a); }
    else if Local(a) { KeepLocal(env, w, a); }
    else if Archiving(a) { KeepArchive(env, w, a); }
    else if Signing(a) { KeepSignature(env, w, a); }
    else { KeepRelay(env, w, a); }
  }

  lemma NothingOk(env: Env)
    ensures Inv(env, Nothing())
  {
  }

  lemma {:induction false} RunKeeps(env: Env, w: World, actions: seq<Action>)
    requires EnvOk(env) && Inv(env, w)
    ensures Inv(env, Run(env, w, actions)) && w.executed <= Run(env, w, actions).executed
    decreases |actions|
  {
    if actions != [] {
      hide EnvOk, Inv, Do, DevicesStep;
      StepKeeps(env, w, actions[0]);
      RunKeeps(env, Do(env, w, actions[0]), actions[1..]);
    }
  }

  // ---- Nothing is erased without everyone ----

  // Everyone registered for the chat signed this very order, and each of them that is a device of ours has a row
  // for it with exactly these contents, which its user agreed to.
  ghost predicate AgreedByAll(w: World, x: Executed) {
    FullySigned(w.signed, x) && forall m :: m in x.members && m.key in w.owner ==> Agreed(w, w.owner[m.key], x.input)
  }

  lemma EveryoneAgreed(env: Env, w: World, x: Executed)
    requires Inv(env, w) && x in w.executed
    ensures AgreedByAll(w, x)
  {
    hide DeviceOk, RelayOk, Agreed, Fits, ViewOk, ReplyOk;
    assert FullySigned(w.signed, x);
    forall m | m in x.members && m.key in w.owner ensures Agreed(w, w.owner[m.key], x.input) {
      assert SignatureOk(w, (m.key, x.input));
    }
  }

  predicate Held(dev: Device, c: Bytes, m: Bytes) {
    c in dev.chats && m in dev.chats[c].messages && dev.chats[c].messages[m]
  }

  lemma ApplyErases(dev: Device, op: Bytes, c: Bytes, m: Bytes)
    requires op in dev.rows && Held(dev, c, m) && !Held(Apply(dev, op), c, m)
    ensures dev.rows[op].conv == c && c in Apply(dev, op).chats
    ensures dev.rows[op].scope != SCOPE_CHAT ==>
              && m in Apply(dev, op).chats[c].messages && m in dev.chats[c].placed
              && NamesNumber(dev.chats[c].chain, dev.rows[op].entries, dev.chats[c].placed[m])
  {
    hide EraseEntries, NamesNumber;
    if dev.rows[op].conv == c { ErasesExactly(dev.chats[c], dev.rows[op].entries, m, 0); }
  }

  lemma ArchiveHolds(env: Env, w: World, a: Action, d: nat, c: Bytes, m: Bytes)
    requires d in w.devices && Held(w.devices[d], c, m)
    ensures var w' := DoArchive(env, w, a); d in w'.devices && Held(w'.devices[d], c, m)
  {
    hide SignedIn, MayJoin, Missed, HashesOf, MemberOf, Unheard;
  }

  lemma LocalHolds(w: World, a: Action, d: nat, c: Bytes, m: Bytes)
    requires d in w.devices && Held(w.devices[d], c, m)
    ensures var w' := DoLocal(w, a); d in w'.devices && Held(w'.devices[d], c, m)
  {
  }

  lemma AnswerHolds(env: Env, w: World, a: Action, d: nat, c: Bytes, m: Bytes)
    requires d in w.devices && Held(w.devices[d], c, m)
    ensures var w' := DoAnswer(env, w, a); d in w'.devices && Held(w'.devices[d], c, m)
  {
    hide Known, MayStart, MaySayYes, DoAsk, DoYes, ReceiveRequest, ReceiveAccept, SetState, Held;
    match a
    case Ask(e, me, b, scope, op, entries, now) =>
      if e in w.devices && MayStart(w.devices[e], b, scope, op, entries, now) { AskHolds(env, w, e, me, b, scope, op, entries, now, d, c, m); }
    case SayYes(v, op) => if MaySayYes(w, v, op) { YesHolds(env, w, v, op, d, c, m); }
    case SayNo(v, op) => if MaySayNo(w, v, op) { StateHolds(DeviceOf(w, v, op), op, Declined, c, m); }
    case Request(e, b, sender, addressed, scope, op, expires, entries, now) =>
      if e in w.devices {
        RequestChats(w.devices[e], b, sender, addressed, scope, op, expires, entries, now);
        SameChatsHold(w.devices[e], ReceiveRequest(w.devices[e], b, sender, addressed, scope, op, expires, entries, now), c, m);
      }
    case Acceptance(e, b, sender, addressed, op, accept) =>
      if e in w.devices {
        AcceptChats(w.devices[e], b, sender, addressed, op, accept);
        SameChatsHold(w.devices[e], ReceiveAccept(w.devices[e], b, sender, addressed, op, accept), c, m);
      }
    case _ =>
  }

  lemma RequestChats(dev: Device, c: Bytes, sender: Bytes, addressed: bool, scope: int, op: Bytes, expires: int, entries: seq<Bytes>, now: int)
    ensures ReceiveRequest(dev, c, sender, addressed, scope, op, expires, entries, now).chats == dev.chats
  {
    hide ValidOrder;
  }

  lemma AcceptChats(dev: Device, c: Bytes, sender: Bytes, addressed: bool, op: Bytes, a: Accept)
    ensures ReceiveAccept(dev, c, sender, addressed, op, a).chats == dev.chats
  {
  }

  lemma AskHolds(env: Env, w: World, e: nat, me: Bytes, b: Bytes, scope: int, op: Bytes, entries: seq<Bytes>, now: int, d: nat, c: Bytes, m: Bytes)
    requires e in w.devices && MayStart(w.devices[e], b, scope, op, entries, now) && d in w.devices && Held(w.devices[d], c, m)
    ensures var w' := DoAsk(env, w, e, me, b, scope, op, entries, now); d in w'.devices && Held(w'.devices[d], c, m)
  {
    hide ValidOrder, LiveChatRequest;
  }

  lemma YesHolds(env: Env, w: World, v: nat, op: Bytes, d: nat, c: Bytes, m: Bytes)
    requires MaySayYes(w, v, op) && d in w.devices && Held(w.devices[d], c, m)
    ensures var w' := DoYes(env, w, v, op); d in w'.devices && Held(w'.devices[d], c, m)
  {
    hide OrderInput;
  }

  lemma SubmitHolds(env: Env, w: World, v: nat, op: Bytes, d: nat, c: Bytes, m: Bytes)
    requires MaySubmit(w, v, op) && d in w.devices && Held(w.devices[d], c, m)
    ensures Held(DoSubmit(env, w, v, op).devices[d], c, m)
  {
    hide DeleteVerdict, CarryOut, SignedIn, Held, AcceptsOf;
    var e, dev := w.views[v].d, DeviceOf(w, v, op);
    var tried := dev.(attempts := dev.attempts[op := |AcceptsOf(dev, op)|]);
    SameChatsHold(dev, tried, c, m);
  }

  lemma SameChatsHold(dev: Device, dev': Device, c: Bytes, m: Bytes)
    requires dev'.chats == dev.chats
    ensures Held(dev', c, m) == Held(dev, c, m)
  {
  }

  lemma CheckHolds(env: Env, w: World, v: nat, op: Bytes, reached: bool, heard: set<Bytes>, d: nat, c: Bytes, m: Bytes)
    requires Sees(w, v, op) && d in w.devices && Held(w.devices[d], c, m)
    ensures Held(DoCheck(env, w, v, op, reached, heard).devices[d], c, m)
  {
    hide SignedIn, IsGone, Noted, Held, SetState;
    var e, dev, r := w.views[v].d, DeviceOf(w, v, op), RowSeen(w, v, op);
    StateHolds(dev, op, Expired, c, m);
    if SignedIn(env, w, e, r.conv) && JoinedIn(dev, r.conv) {
      IsThereToo(env, w, e, r.conv);
      NotedHolds(dev, r.conv, w.archives[r.conv].log, heard, r.entries, c, m);
    }
  }

  lemma IsThereToo(env: Env, w: World, d: nat, c: Bytes)
    requires SignedIn(env, w, d, c)
    ensures c in w.archives
  {
  }

  lemma StateHolds(dev: Device, op: Bytes, state: State, c: Bytes, m: Bytes)
    ensures Held(SetState(dev, op, state), c, m) == Held(dev, c, m)
  {
  }

  lemma NotedHolds(dev: Device, b: Bytes, log: seq<LogEntry>, heard: set<Bytes>, entries: seq<Bytes>, c: Bytes, m: Bytes)
    requires b in dev.chats
    ensures Held(dev.(chats := dev.chats[b := Noted(dev.chats[b], log, heard, entries)]), c, m) == Held(dev, c, m)
  {
    hide ShownGone;
  }

  lemma ExchangeHolds(env: Env, w: World, a: Action, d: nat, c: Bytes, m: Bytes)
    requires d in w.devices && Held(w.devices[d], c, m) && (a.Submit? || a.Check?)
    ensures var w' := DoDelete(env, w, a); d in w'.devices && Held(w'.devices[d], c, m)
  {
    hide DoSubmit, DoCheck, MaySubmit, Sees, Held;
    match a
    case Submit(v, op) => if MaySubmit(w, v, op) { SubmitHolds(env, w, v, op, d, c, m); }
    case Check(v, op, reached, heard) => if Sees(w, v, op) { CheckHolds(env, w, v, op, reached, heard, d, c, m); }
    case _ =>
  }

  lemma RestHolds(env: Env, w: World, a: Action, d: nat)
    requires a.SubmitOrder? || Signing(a)
    ensures Do(env, w, a).devices == w.devices
  {
    hide DeleteVerdict, CarryOut, AllKnown, Fits;
  }

  // Only a call that acts on what it has learnt takes a message away.
  lemma OthersHold(env: Env, w: World, a: Action, d: nat, c: Bytes, m: Bytes)
    requires d in w.devices && Held(w.devices[d], c, m) && !a.Hear?
    ensures var w' := Do(env, w, a); d in w'.devices && Held(w'.devices[d], c, m)
  {
    hide DoLocal, DoArchive, DoAnswer, DoSign, DoDelete, Held, Unheard, MayRegister;
    if a.Submit? || a.Check? { ExchangeHolds(env, w, a, d, c, m); }
    else if a.SubmitOrder? || Signing(a) { RestHolds(env, w, a, d); }
    else if Answering(a) { AnswerHolds(env, w, a, d, c, m); }
    else if Local(a) { LocalHolds(w, a, d, c, m); }
    else if Archiving(a) { ArchiveHolds(env, w, a, d, c, m); }
  }

  // The entry at which a chat's message was archived.
  function EntryOf(chat: Chat, m: Bytes): Option<Bytes> {
    if m in chat.placed && 1 <= chat.placed[m] <= |chat.chain| then Some(chat.chain[chat.placed[m] - 1]) else None
  }

  // The user of this device said yes to this row, which names the chat, or the entry the message was archived at.
  predicate Consented(w: World, d: nat, c: Bytes, m: Bytes, op: Bytes) {
    && d in w.devices && c in w.devices[d].chats && op in w.devices[d].rows && (d, op) in w.said
    && var r := w.devices[d].rows[op];
       && r.conv == c
       && (r.scope == SCOPE_CHAT || (EntryOf(w.devices[d].chats[c], m).Some? && EntryOf(w.devices[d].chats[c], m).value in r.entries))
  }

  // A device loses a message only when a call of its own acts on a row that names it.
  lemma LosesOnlyByHearing(env: Env, w: World, a: Action, d: nat, c: Bytes, m: Bytes)
    requires Inv(env, w) && d in w.devices && Held(w.devices[d], c, m)
    requires var w' := Do(env, w, a); !(d in w'.devices && Held(w'.devices[d], c, m))
    ensures a.Hear? && a.v in w.replies
    ensures var w', x := Do(env, w, a), w.replies[a.v];
            && d in w'.devices && c in w'.devices[d].chats && w'.executed == w.executed && w'.owner == w.owner && w'.late == w.late
            && x.d == d && x.erase && x.row.conv == c && Consented(w, d, c, m, x.op)
            && (x.row.scope == SCOPE_CHAT || (m in w'.devices[d].chats[c].messages && EntryOf(w.devices[d].chats[c], m).value in x.row.entries))
  {
    hide Inv, Apply, NamesNumber, CarriedWith;
    if !a.Hear? {
      OthersHold(env, w, a, d, c, m);
    } else {
      ReplyIsOk(env, w, a.v);
      var x, dev := w.replies[a.v], w.devices[d];
      ApplyErases(dev, x.op, c, m);
      if x.row.scope != SCOPE_CHAT { PlacedAtNamed(dev.chats[c], x.row.entries, m); }
    }
  }

  lemma PlacedAtNamed(chat: Chat, entries: seq<Bytes>, m: Bytes)
    requires m in chat.placed && NamesNumber(chat.chain, entries, chat.placed[m])
    ensures EntryOf(chat, m).Some? && EntryOf(chat, m).value in entries
  {
    hide NumberOf;
    var i :| 0 <= i < |entries| && NumberOf(chat.chain, entries[i]) == Some(chat.placed[m]);
    NumberFound(chat.chain, entries[i]);
  }

  // This order covers the chat, or the entry, and everyone registered agreed to it, this device among them.
  ghost predicate JustifiedBy(env: Env, w: World, d: nat, c: Bytes, x: Executed, key: Bytes) {
    x in w.executed && AgreedByAll(w, x) && key in w.owner && w.owner[key] == (d, c) && MemberOf(env, key) in x.members && Agreed(w, (d, c), x.input)
  }

  // In any state any run can reach, if a step makes a device lose a message it held, then it is a call of that device acting
  // on a request to which its own user had said yes, and which names the chat or the entry the message was archived at.
  // For a whole chat, the relay has carried out an order for it that everyone registered signed and agreed to, and this
  // device is one of them, under the key with which the call had signed in. If only the message's content went, an order
  // for its entry was carried out that everyone registered signed and agreed to; and this device is one of them, under a
  // key it has had for this chat, unless the relay registered that key late.
  lemma ErasedByAgreement(env: Env, actions: seq<Action>, a: Action, d: nat, c: Bytes, m: Bytes)
    requires EnvOk(env)
    requires var w := Run(env, Nothing(), actions);
             var w' := Do(env, w, a);
             d in w.devices && Held(w.devices[d], c, m) && !(d in w'.devices && Held(w'.devices[d], c, m))
    ensures var w := Run(env, Nothing(), actions);
            var w', chat := Do(env, w, a), w.devices[d].chats[c];
            && a.Hear? && a.v in w.replies && d in w'.devices && c in w'.devices[d].chats
            && var reply := w.replies[a.v];
               && reply.d == d && Consented(w, d, c, m, reply.op)
               && if reply.row.scope == SCOPE_CHAT then exists x :: CoversChat(x, c) && JustifiedBy(env, w', d, c, x, reply.key)
                  else
                    && m in w'.devices[d].chats[c].messages && EntryOf(chat, m).Some?
                    && (exists x :: x in w'.executed && AgreedByAll(w', x) && CoversEntry(x, c, EntryOf(chat, m).value))
                    && exists key :: key in w'.owner && w'.owner[key] == (d, c) &&
                         ((c, MemberOf(env, key)) in w'.late || exists x :: CoversEntry(x, c, EntryOf(chat, m).value) && JustifiedBy(env, w', d, c, x, key))
  {
    hide EnvOk, Inv, Do, DevicesStep, Run, Nothing, EntryOf, JustifiedBy, AgreedByAll, MemberOf, CoversChat, CoversEntry, Held;
    var w := Run(env, Nothing(), actions);
    var w' := Do(env, w, a);
    NothingOk(env);
    RunKeeps(env, Nothing(), actions);
    StepKeeps(env, w, a);
    LosesOnlyByHearing(env, w, a, d, c, m);
    var reply, chat := w.replies[a.v], w.devices[d].chats[c];
    ReplyIsOk(env, w, a.v);
    CarriedSame(env, w, w', d, reply.row, reply.key);
    if reply.row.scope == SCOPE_CHAT {
      var x := ChatOrder(env, w', d, c, reply.key);
    } else {
      var hash := EntryOf(chat, m).value;
      assert HadSay(env, w', d, c, hash);
      var x, key := EntryOrder(env, w', d, c, hash);
    }
  }

  lemma ChatOrder(env: Env, w: World, d: nat, c: Bytes, key: Bytes) returns (x: Executed)
    requires Inv(env, w) && key in w.owner && w.owner[key] == (d, c) && DeletedWith(w.executed, c, MemberOf(env, key))
    ensures CoversChat(x, c) && JustifiedBy(env, w, d, c, x, key)
  {
    hide Inv, Agreed, FullySigned;
    x :| x in w.executed && CoversChat(x, c) && MemberOf(env, key) in x.members;
    EveryoneAgreed(env, w, x);
  }

  lemma EntryOrder(env: Env, w: World, d: nat, c: Bytes, hash: Bytes) returns (x: Executed, key: Bytes)
    requires Inv(env, w) && HadSay(env, w, d, c, hash)
    ensures x in w.executed && AgreedByAll(w, x) && CoversEntry(x, c, hash) && key in w.owner && w.owner[key] == (d, c)
    ensures (c, MemberOf(env, key)) in w.late || JustifiedBy(env, w, d, c, x, key)
  {
    hide Inv, Agreed, FullySigned;
    key :| key in w.owner && w.owner[key] == (d, c) && EntryDeletedWith(w.executed, w.late, c, hash, MemberOf(env, key));
    if (c, MemberOf(env, key)) in w.late {
      x :| x in w.executed && CoversEntry(x, c, hash);
    } else {
      x :| x in w.executed && CoversEntry(x, c, hash) && MemberOf(env, key) in x.members;
    }
    EveryoneAgreed(env, w, x);
  }

  // A row that is done was asked for or agreed to by its own user, and everything it names was deleted by orders that
  // everyone registered signed, this device among them with a key it has had for that chat, unless, for an entry, the relay
  // registered that key late.
  lemma DoneByAgreement(env: Env, actions: seq<Action>, d: nat, op: Bytes)
    requires EnvOk(env)
    requires var w := Run(env, Nothing(), actions); d in w.devices && op in w.devices[d].rows && w.devices[d].rows[op].state == Done
    ensures var w := Run(env, Nothing(), actions);
            && (d, op) in w.said && (exists key :: key in w.owner && CarriedWith(env, w, d, w.devices[d].rows[op], key))
            && forall x :: x in w.executed ==> AgreedByAll(w, x)
  {
    hide EnvOk, Run, Nothing, AgreedByAll, SignatureOk, FullySigned, RelayOk, CarriedWith, ChatOk, RowOk, ViewOk, ReplyOk;
    NothingOk(env);
    RunKeeps(env, Nothing(), actions);
    var w := Run(env, Nothing(), actions);
    assert DeviceOk(env, w, d, w.devices[d]);
    forall x | x in w.executed ensures AgreedByAll(w, x) { EveryoneAgreed(env, w, x); }
  }

  // The other way: once everyone registered has signed, submitting does it. The relay carries the order out, and the
  // device, when it hears, wipes the chat, or erases exactly the named entries, and marks the row done.
  lemma AgreementSuffices(env: Env, w: World, v: nat, op: Bytes)
    requires MaySubmit(w, v, op) && SameOrder(RowSeen(w, v, op), DeviceOf(w, v, op).rows[op])
    requires var d, r, order := w.views[v].d, RowSeen(w, v, op), OrderOf(DeviceOf(w, v, op), op, RowSeen(w, v, op));
             && SignedIn(env, w, d, r.conv) && Decodes(order) && w.clock <= order.expires && !Registering(w.archives[r.conv], w.clock)
             && (forall m :: m in w.archives[r.conv].members ==> Backs(order.signatures, InputOf(env.relay, r.conv, order), m))
             && (forall i :: 0 <= i < |order.entries| ==> InLog(w.archives[r.conv].log, order.entries[i]))
    ensures var d, r := w.views[v].d, RowSeen(w, v, op);
            var c, chat, w1 := r.conv, w.devices[d].chats[r.conv], DoSubmit(env, w, v, op);
            && MayHear(w1, v) && |w1.executed| == |w.executed| + 1 && w1.executed[|w.executed|].input == OrderInput(env.relay, op, r)
            && var w2 := DoHear(w1, v);
               && op in w2.devices[d].rows && w2.devices[d].rows[op].state == Done && c in w2.devices[d].chats
               && w2.devices[d].chats[c] == (if r.scope == SCOPE_CHAT then Wiped(chat) else EraseEntries(chat, r.entries))
               && if r.scope == SCOPE_CHAT then c !in w2.archives
                  else
                    && c in w2.archives && |w2.archives[c].log| == |w.archives[c].log|
                    && forall i :: 0 <= i < |w.archives[c].log| && w.archives[c].log[i].hash in r.entries ==> w2.archives[c].log[i].tombstone
  {
    hide Decodes, Backs, InLog, EraseEntries, Wiped, AcceptsOf, CarryOut, DeleteVerdict;
    var d, dev, r := w.views[v].d, DeviceOf(w, v, op), RowSeen(w, v, op);
    var order := OrderOf(dev, op, r);
    VerdictIsYes(env, w, r.conv, order);
    CarriedOutMeans(w.archives, r.conv, order);
    var w1 := DoSubmit(env, w, v, op);
    assert w1.replies[v] == Reply(d, op, r, dev.chats[r.conv].archive.value.key, true) && w1.devices[d].rows == dev.rows && w1.devices[d].chats == dev.chats;
  }

  lemma CarriedOutMeans(archives: map<Bytes, RelayArchive>, c: Bytes, o: Order)
    requires c in archives
    ensures var after := CarryOut(archives, c, o);
            if o.scope == SCOPE_CHAT then c !in after
            else
              && c in after && |after[c].log| == |archives[c].log|
              && forall i :: 0 <= i < |archives[c].log| && archives[c].log[i].hash in o.entries ==> after[c].log[i].tombstone
  {
  }

  lemma VerdictIsYes(env: Env, w: World, c: Bytes, o: Order)
    requires c in w.archives && Decodes(o) && w.clock <= o.expires && !Registering(w.archives[c], w.clock)
    requires forall m :: m in w.archives[c].members ==> Backs(o.signatures, InputOf(env.relay, c, o), m)
    requires forall i :: 0 <= i < |o.entries| ==> InLog(w.archives[c].log, o.entries[i])
    ensures DeleteVerdict(env.relay, w.archives, c, o, w.clock) == CarriedOut
  {
    hide Decodes, Backs, InLog, MembersVerdict;
    EveryoneSigned(w.archives[c].members, o.signatures, InputOf(env.relay, c, o));
  }

  // ---- One row over a whole run ----

  // Over any run, however requests are replayed or changed and whatever calls overlap: a row never goes, what it asks for
  // never changes, it is not pending again once it was answered, and one that is accepted or done has its user's word.
  lemma {:induction false} RowOverRun(env: Env, w: World, actions: seq<Action>, d: nat, op: Bytes)
    requires EnvOk(env) && Inv(env, w) && d in w.devices && op in w.devices[d].rows
    ensures var w' := Run(env, w, actions);
            && d in w'.devices && op in w'.devices[d].rows && RowStep(w.devices[d].rows[op], w'.devices[d].rows[op])
            && (w'.devices[d].rows[op].state == Accepted || w'.devices[d].rows[op].state == Done ==> (d, op) in w'.said)
    decreases |actions|
  {
    hide EnvOk, Inv, Do, DevicesStep;
    if actions != [] {
      var next := Do(env, w, actions[0]);
      StepKeeps(env, w, actions[0]);
      RowMoves(w.devices, next.devices, d, op);
      RowOverRun(env, next, actions[1..], d, op);
    } else {
      RowIsWilling(env, w, d, op);
    }
  }

  lemma RowIsWilling(env: Env, w: World, d: nat, op: Bytes)
    requires Inv(env, w) && d in w.devices && op in w.devices[d].rows
    ensures Willing(w.said, d, op, w.devices[d].rows[op])
  {
    hide ChatOk, SignatureOk, FullySigned, RelayOk, RowOk, AllKnown, Carried, ViewOk, ReplyOk;
    assert DeviceOk(env, w, d, w.devices[d]);
  }
}
