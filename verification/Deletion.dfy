/**
 Deleting by agreement (client/messaging_engine.cpp, client/history_store.cpp, server/relay_service.cpp).

 A request to delete a chat, or some of its messages, is an order with an operation ID. Each member who agrees signs
 the exact order with the key they registered for that chat's archive, and the relay carries an order out only when
 every registered key has signed it. This module holds what one device and the relay do; DeletionProtocol puts any
 number of them together.
 */
module Deletion {
  import opened Wire
  import opened SigningInputs

  const OP_ID_BYTES := 16
  const HASH_BYTES := 32
  const ARCHIVE_ID_BYTES := 16
  const MAX_DELETE_ENTRIES := 64
  const MAX_ARCHIVE_MEMBERS := 16
  const REQUEST_LIFETIME := 7 * 24 * 3600
  const REQUEST_SLACK := 3600
  const SCOPE_CHAT := 1
  const SCOPE_ENTRIES := 2

  datatype State = Pending | Accepted | Declined | Done | Expired

  datatype Row = Row(conv: Bytes, scope: int, expires: int, requester: Bytes, entries: seq<Bytes>, state: State)

  // An ideal signature is the key that made it and what was signed; anything else verifies under no key.
  datatype Signature = Signed(key: Bytes, input: Input) | Junk(bytes: Bytes)

  datatype Accept = Accept(keyHash: Bytes, signature: Signature)

  datatype Archive = Archive(key: Bytes, joined: bool)

  // One chat: its archive, the checked hashes in number order, the number each archived message was found at,
  // the redacted numbers, and the messages with whether their content is still held.
  datatype Chat = Chat(others: set<Bytes>, archive: Option<Archive>, chain: seq<Bytes>, placed: map<Bytes, int>,
                       redacted: set<int>, messages: map<Bytes, bool>)

  datatype Device = Device(chats: map<Bytes, Chat>, rows: map<Bytes, Row>, accepts: map<Bytes, seq<Accept>>, attempts: map<Bytes, nat>)

  // ---- Orders ----

  predicate ValidOrder(scope: int, op: Bytes, entries: seq<Bytes>) {
    && |op| == OP_ID_BYTES
    && (if scope == SCOPE_CHAT then entries == [] else scope == SCOPE_ENTRIES && 1 <= |entries| <= MAX_DELETE_ENTRIES)
    && (forall i :: 0 <= i < |entries| ==> |entries[i]| == HASH_BYTES) && Distinct(entries)
  }

  function OrderInput(relay: Bytes, op: Bytes, r: Row): Input {
    DeleteInput(relay, r.conv, r.scope, op, r.expires, r.entries)
  }

  function Int64(n: int): int {
    if n < TWO64 / 2 then n else n - TWO64
  }

  // ---- One device ----

  function SetState(dev: Device, op: Bytes, state: State): Device {
    if op in dev.rows then dev.(rows := dev.rows[op := dev.rows[op].(state := state)]) else dev
  }

  function AcceptsOf(dev: Device, op: Bytes): seq<Accept> {
    if op in dev.accepts then dev.accepts[op] else []
  }

  // One acceptance for each key: a second one for the same key is ignored.
  function AddAccept(dev: Device, op: Bytes, a: Accept): Device {
    var held := AcceptsOf(dev, op);
    if exists i :: 0 <= i < |held| && held[i].keyHash == a.keyHash then dev
    else dev.(accepts := dev.accepts[op := held + [a]])
  }

  predicate JoinedIn(dev: Device, c: Bytes) {
    c in dev.chats && dev.chats[c].archive.Some? && dev.chats[c].archive.value.joined
  }

  // receive_deletion_request: `addressed` says that the record names exactly the chat's members.
  function ReceiveRequest(dev: Device, c: Bytes, sender: Bytes, addressed: bool, scope: int, op: Bytes, expires: int, entries: seq<Bytes>, now: int): Device {
    if c in dev.chats && sender in dev.chats[c].others && addressed && ValidOrder(scope, op, entries)
      && now < Int64(expires) <= now + REQUEST_LIFETIME + REQUEST_SLACK && dev.chats[c].archive.Some? && op !in dev.rows
    then dev.(rows := dev.rows[op := Row(c, scope, Int64(expires), sender, entries, Pending)])
    else dev
  }

  function ReceiveAccept(dev: Device, c: Bytes, sender: Bytes, addressed: bool, op: Bytes, a: Accept): Device {
    if c in dev.chats && sender in dev.chats[c].others && addressed && op in dev.rows && dev.rows[op].conv == c
      && dev.rows[op].state != Done && dev.rows[op].state != Expired
    then AddAccept(dev, op, a)
    else dev
  }

  predicate MayStart(dev: Device, c: Bytes, scope: int, op: Bytes, entries: seq<Bytes>, now: int) {
    && JoinedIn(dev, c) && op !in dev.rows && ValidOrder(scope, op, entries)
    && (scope == SCOPE_CHAT ==> forall o :: o in dev.rows ==> !LiveChatRequest(dev.rows[o], c, now))
  }

  predicate LiveChatRequest(r: Row, c: Bytes, now: int) {
    r.conv == c && r.scope == SCOPE_CHAT && (r.state == Pending || r.state == Accepted) && r.expires > now
  }

  // Whoever asks has agreed.
  function Start(dev: Device, me: Bytes, c: Bytes, scope: int, op: Bytes, entries: seq<Bytes>, now: int, a: Accept): Device {
    AddAccept(dev.(rows := dev.rows[op := Row(c, scope, now + REQUEST_LIFETIME, me, entries, Accepted)]), op, a)
  }

  predicate MayAgree(dev: Device, op: Bytes, now: int) {
    op in dev.rows && dev.rows[op].state == Pending && now < dev.rows[op].expires && JoinedIn(dev, dev.rows[op].conv)
  }

  function Agree(dev: Device, op: Bytes, a: Accept): Device {
    SetState(AddAccept(dev, op, a), op, Accepted)
  }

  lemma AgreeRows(dev: Device, op: Bytes, a: Accept)
    requires op in dev.rows
    ensures var dev' := Agree(dev, op, a); dev'.rows == dev.rows[op := dev.rows[op].(state := Accepted)] && dev'.chats == dev.chats
  {
  }

  function Decline(dev: Device, op: Bytes): Device {
    if op in dev.rows && dev.rows[op].state == Pending then SetState(dev, op, Declined) else dev
  }

  // ---- Erasing ----

  // The number an entry with this hash was checked at, if any.
  function NumberOf(chain: seq<Bytes>, hash: Bytes): Option<int>
    decreases |chain|
  {
    if chain == [] then None
    else if hash in chain[..|chain| - 1] then NumberOf(chain[..|chain| - 1], hash)
    else if chain[|chain| - 1] == hash then Some(|chain|)
    else None
  }

  function EraseAt(chat: Chat, n: int): Chat {
    chat.(messages := map m | m in chat.messages :: chat.messages[m] && !(m in chat.placed && chat.placed[m] == n),
          redacted := chat.redacted + {n})
  }

  function EraseEntries(chat: Chat, entries: seq<Bytes>): Chat
    decreases |entries|
  {
    if entries == [] then chat
    else
      var rest := EraseEntries(chat, entries[..|entries| - 1]);
      match NumberOf(chat.chain, entries[|entries| - 1])
      case None => rest
      case Some(n) => EraseAt(rest, n)
  }

  function Wiped(chat: Chat): Chat {
    chat.(archive := None, chain := [], placed := map[], redacted := {}, messages := map[])
  }

  // apply_deletion_locally
  function Apply(dev: Device, op: Bytes): Device
    requires op in dev.rows
  {
    var r := dev.rows[op];
    if r.conv !in dev.chats then SetState(dev, op, Done)
    else
      var chat := dev.chats[r.conv];
      SetState(dev.(chats := dev.chats[r.conv := if r.scope == SCOPE_CHAT then Wiped(chat) else EraseEntries(chat, r.entries)]), op, Done)
  }

  // ---- The relay ----

  datatype Member = Member(keyHash: Bytes, key: Bytes)
  datatype LogEntry = LogEntry(hash: Bytes, tombstone: bool)
  datatype RelayArchive = RelayArchive(members: seq<Member>, count: nat, closes: int, log: seq<LogEntry>)

  datatype Order = Order(scope: int, op: Bytes, expires: int, entries: seq<Bytes>, signatures: seq<Accept>)

  datatype Verdict = CarriedOut | Malformed | Lapsed | Unknown | StillOpen | NotAll | BadSignature | UnknownEntry

  predicate OneEach(signatures: seq<Accept>) {
    forall i, j :: 0 <= i < j < |signatures| ==> signatures[i].keyHash != signatures[j].keyHash
  }

  // What decode_archive_delete accepts.
  predicate Decodes(o: Order) {
    && ValidOrder(o.scope, o.op, o.entries) && 0 <= o.expires < TWO64
    && 1 <= |o.signatures| <= MAX_ARCHIVE_MEMBERS && OneEach(o.signatures)
  }

  function InputOf(relay: Bytes, c: Bytes, o: Order): Input {
    DeleteInput(relay, c, o.scope, o.op, o.expires, o.entries)
  }

  // CryptoEngine::verify on the bytes of the order.
  predicate Verifies(input: Input, s: Signature, key: Bytes) {
    s.Signed? && s.key == key && Encode(s.input) == Encode(input)
  }

  function SignatureOf(signatures: seq<Accept>, keyHash: Bytes): Option<Signature>
    decreases |signatures|
  {
    if signatures == [] then None
    else if signatures[|signatures| - 1].keyHash == keyHash then Some(signatures[|signatures| - 1].signature)
    else SignatureOf(signatures[..|signatures| - 1], keyHash)
  }

  // The relay's pass over the registered keys stops at the first that did not sign, or did not sign this.
  function MembersVerdict(members: seq<Member>, signatures: seq<Accept>, input: Input): Verdict
    decreases |members|
  {
    if members == [] then CarriedOut
    else
      var s := SignatureOf(signatures, members[0].keyHash);
      if s.None? then NotAll
      else if !Verifies(input, s.value, members[0].key) then BadSignature
      else MembersVerdict(members[1..], signatures, input)
  }

  // This member's signature of this order is among those given.
  predicate Backs(signatures: seq<Accept>, input: Input, m: Member) {
    var s := SignatureOf(signatures, m.keyHash);
    s.Some? && Verifies(input, s.value, m.key)
  }

  predicate Registering(a: RelayArchive, now: int) {
    |a.members| < a.count && now < a.closes
  }

  predicate InLog(log: seq<LogEntry>, hash: Bytes) {
    exists i :: 0 <= i < |log| && log[i].hash == hash
  }

  function DeleteVerdict(relay: Bytes, archives: map<Bytes, RelayArchive>, c: Bytes, o: Order, now: int): Verdict {
    if !Decodes(o) then Malformed
    else if o.expires < now then Lapsed
    else if c !in archives then Unknown
    else if Registering(archives[c], now) then StillOpen
    else
      var v := MembersVerdict(archives[c].members, o.signatures, InputOf(relay, c, o));
      if v == CarriedOut && o.scope == SCOPE_ENTRIES && exists i :: 0 <= i < |o.entries| && !InLog(archives[c].log, o.entries[i])
      then UnknownEntry else v
  }

  function Redact(log: seq<LogEntry>, entries: seq<Bytes>): seq<LogEntry> {
    seq(|log|, i requires 0 <= i < |log| => if log[i].hash in entries then log[i].(tombstone := true) else log[i])
  }

  function CarryOut(archives: map<Bytes, RelayArchive>, c: Bytes, o: Order): map<Bytes, RelayArchive> {
    if c !in archives then archives
    else if o.scope == SCOPE_CHAT then archives - {c}
    else archives[c := archives[c].(log := Redact(archives[c].log, o.entries))]
  }

  // The relay's inner loop: the signature given for one registered key.
  method FindSignature(signatures: seq<Accept>, keyHash: Bytes) returns (mine: Option<Signature>)
    ensures mine == SignatureOf(signatures, keyHash)
  {
    mine := None;
    var j := 0;
    while j < |signatures|
      invariant 0 <= j <= |signatures|
      invariant mine == SignatureOf(signatures[..j], keyHash)
    {
      assert signatures[..j + 1][..j] == signatures[..j];
      if signatures[j].keyHash == keyHash { mine := Some(signatures[j].signature); }
      j := j + 1;
    }
    assert signatures[..j] == signatures;
  }

  // Its outer loop: an order passes exactly when every registered key has a signature of this order in it.
  method JudgeMembers(members: seq<Member>, signatures: seq<Accept>, input: Input) returns (v: Verdict)
    ensures v == MembersVerdict(members, signatures, input)
    ensures v == CarriedOut <==>
            forall m :: m in members ==> Backs(signatures, input, m)
  {
    hide SignatureOf, Verifies;
    var agreed, valid, i := true, true, 0;
    while i < |members| && agreed && valid
      invariant 0 <= i <= |members|
      invariant agreed && valid ==> MembersVerdict(members, signatures, input) == MembersVerdict(members[i..], signatures, input)
      invariant !agreed ==> MembersVerdict(members, signatures, input) == NotAll
      invariant !valid ==> MembersVerdict(members, signatures, input) == BadSignature
      decreases |members| - i, agreed && valid
    {
      var mine := FindSignature(signatures, members[i].keyHash);
      if mine.None? {
        agreed := false;
      } else if !Verifies(input, mine.value, members[i].key) {
        valid := false;
      } else {
        assert members[i..][1..] == members[i + 1..];
        i := i + 1;
      }
    }
    v := if !agreed then NotAll else if !valid then BadSignature else CarriedOut;
    EveryoneSigned(members, signatures, input);
  }

  lemma {:induction false} EveryoneSigned(members: seq<Member>, signatures: seq<Accept>, input: Input)
    ensures MembersVerdict(members, signatures, input) == CarriedOut <==>
            forall m :: m in members ==> Backs(signatures, input, m)
    decreases |members|
  {
    hide SignatureOf, Verifies;
    if members != [] {
      EveryoneSigned(members[1..], signatures, input);
      FirstOrRest(members, m => Backs(signatures, input, m));
    }
  }

  lemma FirstOrRest(members: seq<Member>, p: Member -> bool)
    requires members != []
    ensures (forall m :: m in members ==> p(m)) <==> p(members[0]) && forall m :: m in members[1..] ==> p(m)
  {
    assert members == [members[0]] + members[1..];
  }

  // ---- What erasing touches ----

  lemma {:induction false} NumberFound(chain: seq<Bytes>, hash: Bytes)
    ensures NumberOf(chain, hash).Some? <==> hash in chain
    ensures NumberOf(chain, hash).Some? ==> 1 <= NumberOf(chain, hash).value <= |chain| && chain[NumberOf(chain, hash).value - 1] == hash
    decreases |chain|
  {
    if chain != [] {
      NumberFound(chain[..|chain| - 1], hash);
      assert chain == chain[..|chain| - 1] + [chain[|chain| - 1]];
    }
  }

  predicate NamesNumber(chain: seq<Bytes>, entries: seq<Bytes>, n: int) {
    exists i :: 0 <= i < |entries| && NumberOf(chain, entries[i]) == Some(n)
  }

  // A message loses its content exactly when it is placed at the number of one of the named entries; the redacted
  // numbers are exactly those of the named entries that are known; everything else about the chat stays.
  lemma {:induction false} ErasesExactly(chat: Chat, entries: seq<Bytes>, m: Bytes, n: int)
    ensures var after := EraseEntries(chat, entries);
            && after.(messages := chat.messages, redacted := chat.redacted) == chat
            && (m in after.messages <==> m in chat.messages)
            && (m in chat.messages ==>
                  (after.messages[m] <==> chat.messages[m] && !(m in chat.placed && NamesNumber(chat.chain, entries, chat.placed[m]))))
            && (n in after.redacted <==> n in chat.redacted || NamesNumber(chat.chain, entries, n))
    decreases |entries|
  {
    if entries != [] {
      var front, last := entries[..|entries| - 1], entries[|entries| - 1];
      hide NumberOf;
      ErasesExactly(chat, front, m, n);
      assert entries == front + [last];
    }
  }

  // ---- The device's tables ----

  class DeletionBook {
    var chats: map<Bytes, Chat>
    var rows: map<Bytes, Row>
    var accepts: map<Bytes, seq<Accept>>
    var attempts: map<Bytes, nat>

    ghost function Value(): Device
      reads this
    {
      Device(chats, rows, accepts, attempts)
    }

    constructor ()
      ensures Value() == Device(map[], map[], map[], map[])
    {
      chats, rows, accepts, attempts := map[], map[], map[], map[];
    }

    method AddDeletionAccept(op: Bytes, a: Accept)
      modifies this`accepts
      ensures Value() == AddAccept(old(Value()), op, a)
    {
      var held := if op in accepts then accepts[op] else [];
      var i := 0;
      while i < |held| && held[i].keyHash != a.keyHash
        invariant 0 <= i <= |held|
        invariant forall k :: 0 <= k < i ==> held[k].keyHash != a.keyHash
      {
        i := i + 1;
      }
      if i == |held| { accepts := accepts[op := held + [a]]; }
    }

    method ReceiveDeletionRequest(c: Bytes, sender: Bytes, addressed: bool, scope: int, op: Bytes, expires: int, entries: seq<Bytes>, now: int)
      returns (added: bool)
      modifies this`rows
      ensures Value() == ReceiveRequest(old(Value()), c, sender, addressed, scope, op, expires, entries, now)
      ensures added <==> Value() != old(Value())
    {
      if c !in chats || sender !in chats[c].others || !addressed { return false; }
      if !ValidOrder(scope, op, entries) || Int64(expires) <= now || Int64(expires) > now + REQUEST_LIFETIME + REQUEST_SLACK { return false; }
      if chats[c].archive.None? || op in rows { return false; }
      rows := rows[op := Row(c, scope, Int64(expires), sender, entries, Pending)];
      assert op in Value().rows && op !in old(Value()).rows;
      return true;
    }

    method ReceiveDeletionAccept(c: Bytes, sender: Bytes, addressed: bool, op: Bytes, a: Accept)
      modifies this`accepts
      ensures Value() == ReceiveAccept(old(Value()), c, sender, addressed, op, a)
    {
      if c in chats && sender in chats[c].others && addressed && op in rows && rows[op].conv == c
        && rows[op].state != Done && rows[op].state != Expired
      {
        AddDeletionAccept(op, a);
      }
    }

    method AcceptDeletion(op: Bytes, now: int, a: Accept) returns (ok: bool)
      modifies this`rows, this`accepts
      ensures ok <==> MayAgree(old(Value()), op, now)
      ensures Value() == if ok then Agree(old(Value()), op, a) else old(Value())
    {
      if op !in rows || rows[op].state != Pending || rows[op].expires <= now { return false; }
      var c := rows[op].conv;
      if c !in chats || chats[c].archive.None? || !chats[c].archive.value.joined { return false; }
      AddDeletionAccept(op, a);
      rows := rows[op := rows[op].(state := Accepted)];
      return true;
    }

    method DeclineDeletion(op: Bytes) returns (ok: bool)
      modifies this`rows
      ensures ok <==> op in old(rows) && old(rows)[op].state == Pending
      ensures Value() == Decline(old(Value()), op)
    {
      if op !in rows || rows[op].state != Pending { return false; }
      rows := rows[op := rows[op].(state := Declined)];
      return true;
    }

    // Erases every message found at one number of the chat's archive, one at a time, and marks the number.
    method EraseNumber(c: Bytes, n: int)
      requires c in chats
      modifies this`chats
      ensures chats == old(chats)[c := EraseAt(old(chats)[c], n)]
    {
      var chat := chats[c];
      var messages := chat.messages;
      var todo := set m | m in chat.placed && chat.placed[m] == n;
      while todo != {}
        invariant forall m :: m in todo ==> m in chat.placed && chat.placed[m] == n
        invariant messages.Keys == chat.messages.Keys
        invariant forall m :: m in messages ==>
                    (messages[m] <==> chat.messages[m] && !(m in chat.placed && chat.placed[m] == n && m !in todo))
        decreases |todo|
      {
        var m :| m in todo;
        if m in messages { messages := messages[m := false]; }
        todo := todo - {m};
      }
      chats := chats[c := chat.(messages := messages, redacted := chat.redacted + {n})];
      assert messages == EraseAt(chat, n).messages;
    }

    method ApplyDeletionLocally(op: Bytes)
      requires op in rows
      modifies this`chats, this`rows
      ensures Value() == Apply(old(Value()), op)
    {
      var r := rows[op];
      var c := r.conv;
      if c in chats {
        if r.scope == SCOPE_CHAT {
          chats := chats[c := Wiped(chats[c])];
        } else {
          EraseNamed(c, r.entries);
        }
      }
      rows := rows[op := rows[op].(state := Done)];
    }

    method EraseNamed(c: Bytes, entries: seq<Bytes>)
      requires c in chats
      modifies this`chats
      ensures chats == old(chats)[c := EraseEntries(old(chats)[c], entries)]
    {
      hide NumberOf, EraseAt;
      ghost var was := chats[c];
      assert entries[..0] == [];
      var i := 0;
      while i < |entries|
        invariant 0 <= i <= |entries| && c in chats
        invariant chats[c] == EraseEntries(was, entries[..i]) && chats[c].chain == was.chain
        invariant chats == old(chats)[c := chats[c]]
      {
        assert entries[..i + 1][..i] == entries[..i];
        ErasesExactly(was, entries[..i + 1], [], 0);
        match NumberOf(chats[c].chain, entries[i]) {
          case None =>
          case Some(n) => EraseNumber(c, n);
        }
        i := i + 1;
      }
      assert entries[..i] == entries;
    }
  }
}
