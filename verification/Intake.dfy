/**
 How records enter the message history (client/messaging_engine.cpp over client/history_store.cpp): by envelope, from an
 accepted request, from an accepted invitation that held them, from a chat's archive, or by restoring.

 Parsing, signatures and the two hashes are parameters. A person is known by the fingerprint of their signing key, so
 "signed by" a fingerprint means under the one key that has it. Only what bears on the messages table is kept: a record
 whose effect is on another table leaves this state as it is.
 */
module Intake {
  import opened Wire

  const MAX_HELD_RECORDS := 200
  const MAX_PENDING_REQUESTS := 100
  const MAX_PENDING_GROUP_INVITES := 50
  const MAX_OTHER_MEMBERS := 15

  datatype Kind = Text | Attachment | TokenGrant | ArchiveGrant | Creation | Other

  // A parsed record. `payloadOk` is whether an attachment's payload parses; `members` are those of a creation record
  // whose payload is valid and bound to them.
  datatype Rec = Rec(raw: Bytes, conv: Bytes, id: Bytes, sender: Bytes, recipients: Bytes, kind: Kind, payloadOk: bool, members: Option<seq<Bytes>>)

  datatype Env = Env(me: Bytes, parse: Bytes -> Option<Rec>, signedBy: (Bytes, Bytes) -> bool,
                     recipientsHash: seq<Bytes> -> Bytes, conversationId: (Bytes, Bytes) -> Bytes)

  datatype Conv = Conv(group: bool, creator: Bytes, members: seq<Bytes>)
  datatype Row = Row(conv: Bytes, id: Bytes, outgoing: bool, rec: Rec)
  datatype Invite = Invite(creator: Bytes, records: seq<Rec>)
  datatype Request = Request(sender: Bytes, records: seq<Rec>, introduced: seq<Bytes>)

  datatype State = State(contacts: set<Bytes>, introduced: set<Bytes>, convs: map<Bytes, Conv>, invites: map<Bytes, Invite>,
                         requests: seq<Request>, rows: seq<Row>)

  // What a step leaves, and whether it was cut short by an exception.
  datatype Outcome = Outcome(st: State, threw: bool)

  // ---- Storing a message ----

  predicate HasMessage(rows: seq<Row>, conv: Bytes, id: Bytes) {
    exists i :: 0 <= i < |rows| && rows[i].conv == conv && rows[i].id == id
  }

  function AddMessage(st: State, row: Row): State {
    if HasMessage(st.rows, row.conv, row.id) then st else st.(rows := st.rows + [row])
  }

  // ensure_conversation: the ID is taken if it is free; what is found under it must be the chat with this contact.
  function Ensure(st: State, id: Bytes, fp: Bytes): Option<State> {
    if id !in st.convs then Some(st.(convs := st.convs[id := Conv(false, [], [fp])]))
    else if st.convs[id] == Conv(false, [], [fp]) then Some(st)
    else None
  }

  // The record is what its stored bytes say.
  predicate Genuine(env: Env, r: Rec) {
    env.parse(r.raw) == Some(r)
  }

  // The people a creation record makes a group of.
  function GroupOf(r: Rec): Option<seq<Bytes>> {
    if r.kind == Creation then r.members else None
  }

  predicate IsMessage(r: Rec) {
    r.kind == Text || (r.kind == Attachment && r.payloadOk)
  }

  predicate Bound(env: Env, c: Conv, r: Rec) {
    r.recipients == env.recipientsHash([env.me] + c.members)
  }

  // ---- One record ----

  function Hold(env: Env, st: State, fp: Bytes, r: Rec): State
    requires r.conv in st.invites
  {
    var invite := st.invites[r.conv];
    if (r.kind != Text && r.kind != TokenGrant && r.kind != ArchiveGrant) || invite.records == [] || GroupOf(invite.records[0]).None? then st
    else
      var members := GroupOf(invite.records[0]).value;
      if fp !in members || r.recipients != env.recipientsHash(members) || r in invite.records || |invite.records| >= 1 + MAX_HELD_RECORDS then st
      else st.(invites := st.invites[r.conv := invite.(records := invite.records + [r])])
  }

  function HandleGroup(env: Env, st: State, fp: Bytes, r: Rec): State {
    if r.sender == env.me then st
    else if r.conv in st.convs && st.convs[r.conv].group then
      if fp in st.convs[r.conv].members && Bound(env, st.convs[r.conv], r) && IsMessage(r) then AddMessage(st, Row(r.conv, r.id, false, r)) else st
    else if r.conv in st.invites then Hold(env, st, fp, r)
    else st
  }

  function HandleRecord(env: Env, st: State, fp: Bytes, r: Rec): Outcome {
    if r.sender != fp then Outcome(st, false)
    else if r.conv != env.conversationId(env.me, fp) then Outcome(HandleGroup(env, st, fp, r), false)
    else if r.recipients != env.recipientsHash([env.me, fp]) || !IsMessage(r) then Outcome(st, false)
    else
      match Ensure(st, r.conv, fp)
      case None => Outcome(st, true)
      case Some(st') => Outcome(AddMessage(st', Row(r.conv, r.id, false, r)), false)
  }

  function SameMembers(env: Env, c: Conv, members: seq<Bytes>): bool {
    multiset(c.members) == multiset(Others(env, members))
  }

  function Others(env: Env, members: seq<Bytes>): seq<Bytes> {
    if members == [] then []
    else if members[0] == env.me then Others(env, members[1..])
    else [members[0]] + Others(env, members[1..])
  }

  // The people a creation record names and its sender introduces become known by their bundles.
  function Introduce(env: Env, st: State, creator: Bytes, members: seq<Bytes>, introduced: seq<Bytes>): State {
    st.(introduced := st.introduced + set i | 0 <= i < |introduced| && introduced[i] != env.me && introduced[i] != creator
                                                && introduced[i] in members && introduced[i] !in st.contacts :: introduced[i])
  }

  function ReceiveInvite(env: Env, st: State, creator: Bytes, r: Rec, introduced: seq<Bytes>): State {
    if GroupOf(r).None? || r.sender != creator || env.me !in r.members.value || r.conv == env.conversationId(env.me, creator) then st
    else if r.conv in st.convs then
      if st.convs[r.conv].group && st.convs[r.conv].creator == creator && SameMembers(env, st.convs[r.conv], r.members.value) then Introduce(env, st, creator, r.members.value, introduced) else st
    else if r.conv in st.invites then
      if st.invites[r.conv].records != [] && st.invites[r.conv].records[0] == r then Introduce(env, st, creator, r.members.value, introduced) else st
    else if |st.invites| >= MAX_PENDING_GROUP_INVITES then st
    else Introduce(env, st.(invites := st.invites[r.conv := Invite(creator, [r])]), creator, r.members.value, introduced)
  }

  // ---- One envelope ----

  datatype Route = FromContact | FromMember | FromStranger | Dropped

  // The bundle is given by its fingerprint, the introductions by theirs.
  datatype Inner = Inner(bundle: Option<Bytes>, records: seq<Bytes>, introduced: seq<Bytes>)

  function Parsed(env: Env, raws: seq<Bytes>): seq<Rec> {
    if raws == [] then []
    else
      var rest := Parsed(env, raws[1..]);
      match env.parse(raws[0])
      case None => rest
      case Some(r) => [r] + rest
  }

  predicate ForAGroup(st: State, rs: seq<Rec>) {
    exists i :: 0 <= i < |rs| && ((rs[i].conv in st.convs && st.convs[rs[i].conv].group) || rs[i].conv in st.invites)
  }

  function RouteOf(env: Env, st: State, inner: Inner, rs: seq<Rec>): Route {
    if rs == [] || rs[0].sender == env.me then Dropped
    else if rs[0].sender in st.contacts then FromContact
    else if rs[0].sender in st.introduced && ForAGroup(st, rs) then FromMember
    else if inner.bundle == Some(rs[0].sender) then FromStranger
    else Dropped
  }

  function HandleOne(env: Env, st: State, route: Route, sender: Bytes, introduced: seq<Bytes>, r: Rec): Outcome {
    if r.sender != sender || !env.signedBy(r.raw, sender) then Outcome(st, false)
    else if route == FromContact then
      if r.kind == Creation then Outcome(ReceiveInvite(env, st, sender, r, introduced), false) else HandleRecord(env, st, sender, r)
    else if route == FromMember && r.kind != Creation then Outcome(HandleGroup(env, st, sender, r), false)
    else Outcome(st, false)
  }

  function HandleAll(env: Env, st: State, route: Route, sender: Bytes, introduced: seq<Bytes>, rs: seq<Rec>): Outcome
    decreases |rs|
  {
    if rs == [] then Outcome(st, false)
    else
      var o := HandleAll(env, st, route, sender, introduced, rs[..|rs| - 1]);
      if o.threw then o else HandleOne(env, o.st, route, sender, introduced, rs[|rs| - 1])
  }

  function Verified(env: Env, sender: Bytes, rs: seq<Rec>): seq<Rec> {
    if rs == [] then []
    else if rs[0].sender == sender && env.signedBy(rs[0].raw, sender) then [rs[0]] + Verified(env, sender, rs[1..])
    else Verified(env, sender, rs[1..])
  }

  function AddRequest(env: Env, st: State, sender: Bytes, introduced: seq<Bytes>, rs: seq<Rec>): State {
    var verified := Verified(env, sender, rs);
    if verified == [] || |st.requests| >= MAX_PENDING_REQUESTS then st
    else
      var invited := exists i :: 0 <= i < |verified| && verified[i].kind == Creation;
      st.(requests := st.requests + [Request(sender, verified, if invited then introduced else [])])
  }

  // process_envelope, once the envelope has been opened; `upTo` records are handled before a crash.
  function Process(env: Env, st: State, inner: Inner, upTo: nat): Outcome {
    var rs := Parsed(env, inner.records);
    var route := RouteOf(env, st, inner, rs);
    if route == Dropped then Outcome(st, false)
    else if route == FromStranger then Outcome(if upTo < |rs| then st else AddRequest(env, st, rs[0].sender, inner.introduced, rs), false)
    else HandleAll(env, st, route, rs[0].sender, inner.introduced, rs[..if upTo < |rs| then upTo else |rs|])
  }

  // ---- The other ways in ----

  // Everything one sender's waiting requests hold, in order.
  function Merged(requests: seq<Request>, sender: Bytes): Request {
    if requests == [] then Request(sender, [], [])
    else
      var rest := Merged(requests[1..], sender);
      if requests[0].sender == sender then Request(sender, requests[0].records + rest.records, requests[0].introduced + rest.introduced) else rest
  }

  function Without(requests: seq<Request>, sender: Bytes): seq<Request> {
    if requests == [] then []
    else if requests[0].sender == sender then Without(requests[1..], sender)
    else [requests[0]] + Without(requests[1..], sender)
  }

  // The first n of one sender's requests: those that were there when they were read.
  function FirstOf(requests: seq<Request>, sender: Bytes, n: nat): seq<Request> {
    if requests == [] || n == 0 then []
    else if requests[0].sender == sender then [requests[0]] + FirstOf(requests[1..], sender, n - 1)
    else FirstOf(requests[1..], sender, n)
  }

  // What accept_request does with the requests it read: they are a contact now, and what they sent is handled as if it had
  // just arrived.
  function Accepting(env: Env, st: State, sender: Bytes, n: nat): Outcome {
    var q := Merged(FirstOf(st.requests, sender, n), sender);
    HandleAll(env, st.(contacts := st.contacts + {sender}), FromContact, sender, q.introduced, q.records)
  }

  predicate AcceptsRequest(env: Env, st: State, sender: Bytes, n: nat) {
    FirstOf(st.requests, sender, n) != [] && !Accepting(env, st, sender, n).threw
  }

  // accept_request as a whole. It ends by deleting all of the sender's requests, also those that came after it read.
  function AcceptRequest(env: Env, st: State, sender: Bytes, n: nat): Outcome {
    if FirstOf(st.requests, sender, n) == [] then Outcome(st, false)
    else
      var o := Accepting(env, st, sender, n);
      if o.threw then o else Outcome(o.st.(requests := Without(o.st.requests, sender)), false)
  }

  // requests(), which lists what waits, first deletes the requests of everyone who is a contact by now.
  function Listed(requests: seq<Request>, contacts: set<Bytes>): seq<Request> {
    if requests == [] then []
    else if requests[0].sender in contacts then Listed(requests[1..], contacts)
    else [requests[0]] + Listed(requests[1..], contacts)
  }

  // create_group: an existing conversation of that ID is left as it is.
  function CreateGroup(st: State, id: Bytes, creator: Bytes, members: seq<Bytes>): State {
    if id in st.convs then st else st.(convs := st.convs[id := Conv(true, creator, members)])
  }

  predicate CanBeGroup(members: seq<Bytes>) {
    1 <= |members| <= MAX_OTHER_MEMBERS && forall i, j :: 0 <= i < j < |members| ==> members[i] != members[j]
  }

  function HandleHeld(env: Env, st: State, rs: seq<Rec>): State
    decreases |rs|
  {
    if rs == [] then st
    else
      var st' := HandleHeld(env, st, rs[..|rs| - 1]);
      var r := rs[|rs| - 1];
      if r.sender in st'.contacts + st'.introduced && env.signedBy(r.raw, r.sender) then HandleGroup(env, st', r.sender, r) else st'
  }

  predicate AcceptsInvite(env: Env, st: State, id: Bytes) {
    && id in st.invites && st.invites[id].records != [] && st.invites[id].creator in st.contacts
    && var first := st.invites[id].records[0];
       GroupOf(first).Some? && env.signedBy(first.raw, st.invites[id].creator) && CanBeGroup(Others(env, first.members.value))
  }

  // The creation record and the first n of those held: what was there when the invitation was read.
  function ReadUpTo(records: seq<Rec>, n: nat): seq<Rec> {
    if n + 1 < |records| then records[..n + 1] else records
  }

  // accept_group_invite. It ends by deleting the invitation, with what it came to hold after it was read.
  function AcceptInvite(env: Env, st: State, id: Bytes, n: nat): State {
    if !AcceptsInvite(env, st, id) then st
    else
      var records := ReadUpTo(st.invites[id].records, n);
      var st1 := CreateGroup(st, id, st.invites[id].creator, Others(env, records[0].members.value));
      var st2 := AddMessage(st1, Row(id, records[0].id, false, records[0]));
      var st3 := HandleHeld(env, st2, records[1..]);
      st3.(invites := st3.invites - {id})
  }

  function TakeArchived(env: Env, st: State, conv: Bytes, r: Rec): Outcome
    requires conv in st.convs
  {
    if r.conv != conv || r.sender == env.me || r.sender !in st.contacts + st.introduced || !env.signedBy(r.raw, r.sender) || !IsMessage(r) then Outcome(st, false)
    else if !st.convs[conv].group then
      if r.sender in st.contacts then HandleRecord(env, st, r.sender, r) else Outcome(st, false)
    else Outcome(HandleGroup(env, st, r.sender, r), false)
  }

  // restore_records, for one record.
  function Restore(env: Env, st: State, conv: Bytes, r: Rec): State
    requires conv in st.convs
  {
    var mine := r.sender == env.me;
    if r.conv != conv || !Bound(env, st.convs[conv], r) || !env.signedBy(r.raw, r.sender) then st
    else if !mine && (r.sender !in st.convs[conv].members || r.sender !in st.contacts + st.introduced) then st
    else if !IsMessage(r) && r.kind != Creation then st
    else AddMessage(st, Row(conv, r.id, mine, r))
  }

  function RebuildDirect(env: Env, st: State, fp: Bytes): Outcome {
    if fp !in st.contacts then Outcome(st, false)
    else match Ensure(st, env.conversationId(env.me, fp), fp) case None => Outcome(st, true) case Some(st') => Outcome(st', false)
  }

  function RebuildGroup(env: Env, st: State, r: Rec): State {
    if GroupOf(r).None? || (r.sender != env.me && r.sender !in st.contacts + st.introduced) then st
    else if env.me !in r.members.value || !env.signedBy(r.raw, r.sender) || !CanBeGroup(Others(env, r.members.value)) then st
    else CreateGroup(st, r.conv, r.sender, Others(env, r.members.value))
  }

  // ---- Authentic history ----

  // An incoming message was signed by a member of the conversation it is in, for that conversation, and for exactly
  // this user and the members stored for it.
  predicate Authentic(env: Env, convs: map<Bytes, Conv>, row: Row) {
    !row.outgoing && IsMessage(row.rec) ==>
      && row.rec.conv == row.conv && row.rec.id == row.id && row.conv in convs
      && row.rec.sender in convs[row.conv].members && Bound(env, convs[row.conv], row.rec)
      && env.signedBy(row.rec.raw, row.rec.sender)
  }

  predicate Unique(rows: seq<Row>) {
    forall i, j :: 0 <= i < j < |rows| ==> rows[i].conv != rows[j].conv || rows[i].id != rows[j].id
  }

  predicate AllGenuine(env: Env, rs: seq<Rec>) {
    forall i :: 0 <= i < |rs| ==> Genuine(env, rs[i])
  }

  predicate RowsOk(env: Env, st: State) {
    Unique(st.rows) && forall i :: 0 <= i < |st.rows| ==> Authentic(env, st.convs, st.rows[i]) && Genuine(env, st.rows[i].rec)
  }

  predicate WaitingOk(env: Env, st: State) {
    && (forall c :: c in st.invites ==> AllGenuine(env, st.invites[c].records))
    && (forall i :: 0 <= i < |st.requests| ==> AllGenuine(env, st.requests[i].records))
  }

  predicate Inv(env: Env, st: State) {
    RowsOk(env, st) && WaitingOk(env, st)
  }

  // Conversations are only ever added, and a stored message is never changed.
  predicate Grows(st: State, st': State) {
    st.rows <= st'.rows && forall c :: c in st.convs ==> c in st'.convs && st'.convs[c] == st.convs[c]
  }

  predicate Keeps(env: Env, st: State, st': State) {
    Grows(st, st') && Inv(env, st')
  }

  lemma AddKeeps(env: Env, st: State, row: Row)
    requires Inv(env, st) && Authentic(env, st.convs, row) && Genuine(env, row.rec)
    ensures Keeps(env, st, AddMessage(st, row))
  {
    hide Authentic, Genuine, AllGenuine;
  }

  // Widening what is known, and anything waiting, leaves the messages authentic.
  lemma MoreKnown(env: Env, st: State, st': State)
    requires Inv(env, st) && Grows(st, st') && st'.rows == st.rows && WaitingOk(env, st')
    ensures Inv(env, st')
  {
    hide Genuine, WaitingOk, Unique;
    forall i | 0 <= i < |st.rows| ensures Authentic(env, st'.convs, st.rows[i]) { assert Authentic(env, st.convs, st.rows[i]); }
  }

  lemma EnsureKeeps(env: Env, st: State, id: Bytes, fp: Bytes)
    requires Inv(env, st)
    ensures var e := Ensure(st, id, fp);
            e.Some? ==> Keeps(env, st, e.value) && id in e.value.convs && e.value.convs[id] == Conv(false, [], [fp])
  {
    hide Unique, Authentic, Genuine;
    var e := Ensure(st, id, fp);
    if e.Some? { MoreKnown(env, st, e.value); }
  }

  lemma HoldKeeps(env: Env, st: State, fp: Bytes, r: Rec)
    requires Inv(env, st) && Genuine(env, r) && r.conv in st.invites
    ensures Keeps(env, st, Hold(env, st, fp, r))
  {
    hide RowsOk, Genuine, GroupOf;
    var st' := Hold(env, st, fp, r);
    assert WaitingOk(env, st');
    MoreKnown(env, st, st');
  }

  lemma GroupKeeps(env: Env, st: State, fp: Bytes, r: Rec)
    requires Inv(env, st) && Genuine(env, r) && (fp == r.sender && env.signedBy(r.raw, fp))
    ensures Keeps(env, st, HandleGroup(env, st, fp, r))
  {
    hide Inv, AddMessage, Hold, Bound, Genuine;
    if r.conv in st.convs && st.convs[r.conv].group && fp in st.convs[r.conv].members && Bound(env, st.convs[r.conv], r) && IsMessage(r) {
      AddKeeps(env, st, Row(r.conv, r.id, false, r));
    }
    if r.conv in st.invites { HoldKeeps(env, st, fp, r); }
  }

  lemma RecordKeeps(env: Env, st: State, fp: Bytes, r: Rec)
    requires Inv(env, st) && Genuine(env, r) && env.signedBy(r.raw, fp)
    ensures Keeps(env, st, HandleRecord(env, st, fp, r).st)
  {
    hide Inv, AddMessage, HandleGroup, Genuine, Ensure;
    if r.sender == fp {
      if r.conv != env.conversationId(env.me, fp) {
        GroupKeeps(env, st, fp, r);
      } else {
        EnsureKeeps(env, st, r.conv, fp);
        var e := Ensure(st, r.conv, fp);
        if e.Some? && r.recipients == env.recipientsHash([env.me, fp]) && IsMessage(r) {
          assert [env.me] + [fp] == [env.me, fp];
          AddKeeps(env, e.value, Row(r.conv, r.id, false, r));
        }
      }
    }
  }

  lemma InviteKeeps(env: Env, st: State, creator: Bytes, r: Rec, introduced: seq<Bytes>)
    requires Inv(env, st) && Genuine(env, r)
    ensures Keeps(env, st, ReceiveInvite(env, st, creator, r, introduced))
  {
    hide RowsOk, Genuine, GroupOf, SameMembers;
    var st' := ReceiveInvite(env, st, creator, r, introduced);
    assert WaitingOk(env, st');
    MoreKnown(env, st, st');
  }

  lemma OneKeeps(env: Env, st: State, route: Route, sender: Bytes, introduced: seq<Bytes>, r: Rec)
    requires Inv(env, st) && Genuine(env, r)
    ensures Keeps(env, st, HandleOne(env, st, route, sender, introduced, r).st)
  {
    hide Inv, Genuine, HandleRecord, HandleGroup, ReceiveInvite;
    if r.sender == sender && env.signedBy(r.raw, sender) {
      RecordKeeps(env, st, sender, r);
      GroupKeeps(env, st, sender, r);
      InviteKeeps(env, st, sender, r, introduced);
    }
  }

  lemma {:induction false} AllKeeps(env: Env, st: State, route: Route, sender: Bytes, introduced: seq<Bytes>, rs: seq<Rec>)
    requires Inv(env, st) && AllGenuine(env, rs)
    ensures Keeps(env, st, HandleAll(env, st, route, sender, introduced, rs).st)
    decreases |rs|
  {
    if rs != [] {
      hide Inv, Genuine, HandleOne;
      AllKeeps(env, st, route, sender, introduced, rs[..|rs| - 1]);
      OneKeeps(env, HandleAll(env, st, route, sender, introduced, rs[..|rs| - 1]).st, route, sender, introduced, rs[|rs| - 1]);
    }
  }

  // A parsed record carries the bytes it was parsed from.
  ghost predicate EnvOk(env: Env) {
    forall b :: env.parse(b).Some? ==> env.parse(b).value.raw == b
  }

  lemma {:induction false} ParsedGenuine(env: Env, raws: seq<Bytes>)
    requires EnvOk(env)
    ensures AllGenuine(env, Parsed(env, raws))
    decreases |raws|
  {
    if raws != [] { ParsedGenuine(env, raws[1..]); }
  }

  lemma {:induction false} VerifiedGenuine(env: Env, sender: Bytes, rs: seq<Rec>)
    requires AllGenuine(env, rs)
    ensures AllGenuine(env, Verified(env, sender, rs))
    decreases |rs|
  {
    if rs != [] { VerifiedGenuine(env, sender, rs[1..]); }
  }

  lemma {:induction false} MergedGenuine(env: Env, requests: seq<Request>, sender: Bytes)
    requires forall i :: 0 <= i < |requests| ==> AllGenuine(env, requests[i].records)
    ensures AllGenuine(env, Merged(requests, sender).records)
    ensures forall i :: 0 <= i < |Without(requests, sender)| ==> AllGenuine(env, Without(requests, sender)[i].records)
    decreases |requests|
  {
    if requests != [] { MergedGenuine(env, requests[1..], sender); }
  }

  lemma ProcessKeeps(env: Env, st: State, inner: Inner, upTo: nat)
    requires EnvOk(env) && Inv(env, st)
    ensures Keeps(env, st, Process(env, st, inner, upTo).st)
  {
    hide EnvOk, RowsOk, Genuine, HandleAll, ForAGroup;
    var rs := Parsed(env, inner.records);
    ParsedGenuine(env, inner.records);
    var route := RouteOf(env, st, inner, rs);
    if route == FromStranger {
      VerifiedGenuine(env, rs[0].sender, rs);
      var st' := AddRequest(env, st, rs[0].sender, inner.introduced, rs);
      assert WaitingOk(env, st');
      MoreKnown(env, st, st');
    } else if route != Dropped {
      AllKeeps(env, st, route, rs[0].sender, inner.introduced, rs[..if upTo < |rs| then upTo else |rs|]);
    }
  }

  lemma {:induction false} FirstGenuine(env: Env, requests: seq<Request>, sender: Bytes, n: nat)
    requires forall i :: 0 <= i < |requests| ==> AllGenuine(env, requests[i].records)
    ensures forall i :: 0 <= i < |FirstOf(requests, sender, n)| ==> AllGenuine(env, FirstOf(requests, sender, n)[i].records)
    decreases |requests|
  {
    hide AllGenuine;
    if requests != [] && n > 0 {
      if requests[0].sender == sender { FirstGenuine(env, requests[1..], sender, n - 1); } else { FirstGenuine(env, requests[1..], sender, n); }
    }
  }

  lemma {:induction false} ListedGenuine(env: Env, requests: seq<Request>, contacts: set<Bytes>)
    requires forall i :: 0 <= i < |requests| ==> AllGenuine(env, requests[i].records)
    ensures forall i :: 0 <= i < |Listed(requests, contacts)| ==> AllGenuine(env, Listed(requests, contacts)[i].records)
    decreases |requests|
  {
    hide AllGenuine;
    if requests != [] { ListedGenuine(env, requests[1..], contacts); }
  }

  lemma AcceptRequestKeeps(env: Env, st: State, sender: Bytes, n: nat)
    requires Inv(env, st)
    ensures Keeps(env, st, AcceptRequest(env, st, sender, n).st)
  {
    hide RowsOk, Genuine, HandleAll;
    var q, st1 := Merged(FirstOf(st.requests, sender, n), sender), st.(contacts := st.contacts + {sender});
    FirstGenuine(env, st.requests, sender, n);
    MergedGenuine(env, FirstOf(st.requests, sender, n), sender);
    MoreKnown(env, st, st1);
    AllKeeps(env, st1, FromContact, sender, q.introduced, q.records);
    var o := HandleAll(env, st1, FromContact, sender, q.introduced, q.records);
    MergedGenuine(env, o.st.requests, sender);
    MoreKnown(env, o.st, o.st.(requests := Without(o.st.requests, sender)));
  }

  lemma {:induction false} HeldKeeps(env: Env, st: State, rs: seq<Rec>)
    requires Inv(env, st) && AllGenuine(env, rs)
    ensures Keeps(env, st, HandleHeld(env, st, rs))
    decreases |rs|
  {
    if rs != [] {
      hide Inv, Genuine, HandleGroup;
      HeldKeeps(env, st, rs[..|rs| - 1]);
      var st', r := HandleHeld(env, st, rs[..|rs| - 1]), rs[|rs| - 1];
      if env.signedBy(r.raw, r.sender) { GroupKeeps(env, st', r.sender, r); }
    }
  }

  lemma AcceptInviteKeeps(env: Env, st: State, id: Bytes, n: nat)
    requires Inv(env, st)
    ensures Keeps(env, st, AcceptInvite(env, st, id, n))
  {
    hide RowsOk, Genuine, AddMessage, HandleHeld, CanBeGroup, Others;
    if AcceptsInvite(env, st, id) {
      var records := ReadUpTo(st.invites[id].records, n);
      var first := records[0];
      assert AllGenuine(env, st.invites[id].records) && AllGenuine(env, records);
      var st1 := CreateGroup(st, id, st.invites[id].creator, Others(env, first.members.value));
      MoreKnown(env, st, st1);
      AddKeeps(env, st1, Row(id, first.id, false, first));
      var st2 := AddMessage(st1, Row(id, first.id, false, first));
      var st3 := HandleHeld(env, st2, records[1..]);
      HeldKeeps(env, st2, records[1..]);
      MoreKnown(env, st3, st3.(invites := st3.invites - {id}));
    }
  }

  lemma ArchivedKeeps(env: Env, st: State, conv: Bytes, r: Rec)
    requires Inv(env, st) && Genuine(env, r) && conv in st.convs
    ensures Keeps(env, st, TakeArchived(env, st, conv, r).st) && Keeps(env, st, Restore(env, st, conv, r))
  {
    hide Inv, Genuine, HandleRecord, HandleGroup, AddMessage, IsMessage;
    if env.signedBy(r.raw, r.sender) {
      RecordKeeps(env, st, r.sender, r);
      GroupKeeps(env, st, r.sender, r);
      var row := Row(conv, r.id, r.sender == env.me, r);
      if Authentic(env, st.convs, row) { AddKeeps(env, st, row); }
    }
  }

  // ---- Every path, in any order ----

  datatype Action =
    | Receive(inner: Inner, upTo: nat)
    | TakeRequest(sender: Bytes, n: nat)
    | DropRequest(sender: Bytes)
    | ListRequests
    | TakeInvite(conv: Bytes, n: nat)
    | DropInvite(conv: Bytes)
    | FromArchive(conv: Bytes, raw: Bytes)
    | FromRestore(conv: Bytes, raw: Bytes)
    | MakeDirect(fp: Bytes)
    | MakeGroup(raw: Bytes)
    | OwnGroup(conv: Bytes, members: seq<Bytes>)
    | Send(r: Rec)
    | AddContact(fp: Bytes)
    | RemoveContact(fp: Bytes)
    | Forget(people: set<Bytes>)

  function Do(env: Env, st: State, a: Action): State {
    match a
    case Receive(inner, upTo) => Process(env, st, inner, upTo).st
    case TakeRequest(sender, n) => AcceptRequest(env, st, sender, n).st
    case DropRequest(sender) => st.(requests := Without(st.requests, sender))
    case ListRequests => st.(requests := Listed(st.requests, st.contacts))
    case TakeInvite(conv, n) => AcceptInvite(env, st, conv, n)
    case DropInvite(conv) => st.(invites := st.invites - {conv})
    case FromArchive(conv, raw) => if conv in st.convs && env.parse(raw).Some? then TakeArchived(env, st, conv, env.parse(raw).value).st else st
    case FromRestore(conv, raw) => if conv in st.convs && env.parse(raw).Some? then Restore(env, st, conv, env.parse(raw).value) else st
    case MakeDirect(fp) => RebuildDirect(env, st, fp).st
    case MakeGroup(raw) => if env.parse(raw).Some? then RebuildGroup(env, st, env.parse(raw).value) else st
    case OwnGroup(conv, members) => if CanBeGroup(members) then CreateGroup(st, conv, env.me, members) else st
    case Send(r) => if Genuine(env, r) then AddMessage(st, Row(r.conv, r.id, true, r)) else st
    case AddContact(fp) => st.(contacts := st.contacts + {fp})
    case RemoveContact(fp) => st.(contacts := st.contacts - {fp})
    case Forget(people) => st.(introduced := st.introduced - people)
  }

  lemma StepKeeps(env: Env, st: State, a: Action)
    requires EnvOk(env) && Inv(env, st)
    ensures Keeps(env, st, Do(env, st, a))
  {
    hide RowsOk, Genuine, Process, AcceptRequest, AcceptInvite, TakeArchived, Restore, Ensure, CanBeGroup, AddMessage, Others, AllGenuine;
    match a
    case Receive(inner, upTo) => ProcessKeeps(env, st, inner, upTo);
    case TakeRequest(sender, n) => AcceptRequestKeeps(env, st, sender, n);
    case DropRequest(sender) => MergedGenuine(env, st.requests, sender); MoreKnown(env, st, Do(env, st, a));
    case ListRequests => ListedGenuine(env, st.requests, st.contacts); MoreKnown(env, st, Do(env, st, a));
    case TakeInvite(conv, n) => AcceptInviteKeeps(env, st, conv, n);
    case FromArchive(conv, raw) => if conv in st.convs && env.parse(raw).Some? { GenuineParse(env, raw); ArchivedKeeps(env, st, conv, env.parse(raw).value); }
    case FromRestore(conv, raw) => if conv in st.convs && env.parse(raw).Some? { GenuineParse(env, raw); ArchivedKeeps(env, st, conv, env.parse(raw).value); }
    case MakeDirect(fp) => EnsureKeeps(env, st, env.conversationId(env.me, fp), fp);
    case Send(r) => if Genuine(env, r) { AddKeeps(env, st, Row(r.conv, r.id, true, r)); }
    case _ => MoreKnown(env, st, Do(env, st, a));
  }

  lemma GenuineParse(env: Env, raw: Bytes)
    requires EnvOk(env) && env.parse(raw).Some?
    ensures Genuine(env, env.parse(raw).value)
  {
  }

  function Run(env: Env, st: State, actions: seq<Action>): State
    decreases |actions|
  {
    if actions == [] then st else Run(env, Do(env, st, actions[0]), actions[1..])
  }

  function Nothing(): State {
    State({}, {}, map[], map[], [], [])
  }

  lemma {:induction false} RunKeeps(env: Env, st: State, actions: seq<Action>)
    requires EnvOk(env) && Inv(env, st)
    ensures Keeps(env, st, Run(env, st, actions))
    decreases |actions|
  {
    if actions != [] {
      hide EnvOk, Inv, Do;
      StepKeeps(env, st, actions[0]);
      RunKeeps(env, Do(env, st, actions[0]), actions[1..]);
    }
  }

  // Whatever arrives, by whichever path and in whatever order: every stored incoming message is authentic, no two rows
  // share a conversation and message ID, and nothing stored is ever replaced.
  lemma HistoryIsAuthentic(env: Env, before: seq<Action>, after: seq<Action>)
    requires EnvOk(env)
    ensures var st := Run(env, Nothing(), before);
            var st' := Run(env, st, after);
            && (forall i :: 0 <= i < |st'.rows| ==> Authentic(env, st'.convs, st'.rows[i]) && Genuine(env, st'.rows[i].rec))
            && Unique(st'.rows) && st.rows <= st'.rows
  {
    hide EnvOk, Run;
    RunKeeps(env, Nothing(), before);
    RunKeeps(env, Run(env, Nothing(), before), after);
  }

  // ---- The device's tables ----

  class Inbox {
    var contacts: set<Bytes>
    var introduced: set<Bytes>
    var convs: map<Bytes, Conv>
    var invites: map<Bytes, Invite>
    var requests: seq<Request>
    var rows: seq<Row>

    ghost function Value(): State
      reads this
    {
      State(contacts, introduced, convs, invites, requests, rows)
    }

    constructor ()
      ensures Value() == Nothing()
    {
      contacts, introduced, convs, invites, requests, rows := {}, {}, map[], map[], [], [];
    }

    method StoreMessage(row: Row) returns (added: bool)
      modifies this`rows
      ensures Value() == AddMessage(old(Value()), row)
      ensures added <==> !HasMessage(old(rows), row.conv, row.id)
    {
      var i := 0;
      while i < |rows| && !(rows[i].conv == row.conv && rows[i].id == row.id)
        invariant 0 <= i <= |rows|
        invariant forall k :: 0 <= k < i ==> !(rows[k].conv == row.conv && rows[k].id == row.id)
      {
        i := i + 1;
      }
      if i < |rows| { return false; }
      rows := rows + [row];
      return true;
    }

    method HoldForInvite(env: Env, fp: Bytes, r: Rec)
      requires r.conv in invites
      modifies this`invites
      ensures Value() == Hold(env, old(Value()), fp, r)
    {
      if r.kind != Text && r.kind != TokenGrant && r.kind != ArchiveGrant { return; }
      var invite := invites[r.conv];
      if invite.records == [] || GroupOf(invite.records[0]).None? { return; }
      var members := GroupOf(invite.records[0]).value;
      if fp !in members || r.recipients != env.recipientsHash(members) || r in invite.records || |invite.records| >= 1 + MAX_HELD_RECORDS { return; }
      invites := invites[r.conv := invite.(records := invite.records + [r])];
    }

    method HandleGroupRecord(env: Env, fp: Bytes, r: Rec)
      modifies this`rows, this`invites
      ensures Value() == HandleGroup(env, old(Value()), fp, r)
    {
      if r.sender == env.me { return; }
      if r.conv in convs && convs[r.conv].group {
        if fp in convs[r.conv].members && Bound(env, convs[r.conv], r) && IsMessage(r) {
          var _ := StoreMessage(Row(r.conv, r.id, false, r));
        }
        return;
      }
      if r.conv in invites { HoldForInvite(env, fp, r); }
    }

    method HandleContactRecord(env: Env, fp: Bytes, r: Rec) returns (threw: bool)
      modifies this`rows, this`invites, this`convs
      ensures Outcome(Value(), threw) == HandleRecord(env, old(Value()), fp, r)
    {
      if r.sender != fp { return false; }
      if r.conv != env.conversationId(env.me, fp) {
        HandleGroupRecord(env, fp, r);
        return false;
      }
      if r.recipients != env.recipientsHash([env.me, fp]) || !IsMessage(r) { return false; }
      if r.conv !in convs {
        convs := convs[r.conv := Conv(false, [], [fp])];
      } else if convs[r.conv] != Conv(false, [], [fp]) {
        return true;
      }
      var _ := StoreMessage(Row(r.conv, r.id, false, r));
      return false;
    }

    method ReceiveGroupInvite(env: Env, creator: Bytes, r: Rec, people: seq<Bytes>)
      modifies this`invites, this`introduced
      ensures Value() == ReceiveInvite(env, old(Value()), creator, r, people)
    {
      hide SameMembers, Others;
      if GroupOf(r).None? || r.sender != creator { return; }
      var members := r.members.value;
      if env.me !in members || r.conv == env.conversationId(env.me, creator) { return; }
      if r.conv in convs {
        if !convs[r.conv].group || convs[r.conv].creator != creator || !SameMembers(env, convs[r.conv], members) { return; }
      } else if r.conv in invites {
        if invites[r.conv].records == [] || invites[r.conv].records[0] != r { return; }
      } else {
        if |invites| >= MAX_PENDING_GROUP_INVITES { return; }
        invites := invites[r.conv := Invite(creator, [r])];
      }
      RememberIntroduced(env, creator, members, people);
    }

    method RememberIntroduced(env: Env, creator: Bytes, members: seq<Bytes>, people: seq<Bytes>)
      modifies this`introduced
      ensures Value() == Introduce(env, old(Value()), creator, members, people)
    {
      var i := 0;
      while i < |people|
        invariant 0 <= i <= |people|
        invariant introduced == old(introduced) + set k | 0 <= k < i && people[k] != env.me && people[k] != creator && people[k] in members && people[k] !in contacts :: people[k]
      {
        var fp := people[i];
        if fp != env.me && fp != creator && fp in members && fp !in contacts { introduced := introduced + {fp}; }
        i := i + 1;
      }
    }

    // The loop over an envelope's records, for a contact or for a member of a shared group.
    method HandleRecords(env: Env, route: Route, sender: Bytes, people: seq<Bytes>, rs: seq<Rec>) returns (threw: bool)
      modifies this`rows, this`invites, this`convs, this`introduced
      ensures Outcome(Value(), threw) == HandleAll(env, old(Value()), route, sender, people, rs)
    {
      hide HandleRecord, HandleGroup, ReceiveInvite;
      threw := false;
      var i := 0;
      assert rs[..0] == [];
      while i < |rs|
        invariant 0 <= i <= |rs| && !threw
        invariant HandleAll(env, old(Value()), route, sender, people, rs[..i]) == Outcome(Value(), false)
        invariant contacts == old(contacts) && requests == old(requests)
      {
        var r := rs[i];
        assert rs[..i + 1][..i] == rs[..i];
        if r.sender == sender && env.signedBy(r.raw, sender) {
          if route == FromContact {
            if r.kind == Creation { ReceiveGroupInvite(env, sender, r, people); }
            else { threw := HandleContactRecord(env, sender, r); }
          } else if route == FromMember && r.kind != Creation {
            HandleGroupRecord(env, sender, r);
          }
        }
        if threw {
          StoppedEarly(env, old(Value()), route, sender, people, rs, i + 1);
          return;
        }
        i := i + 1;
      }
      assert rs[..i] == rs;
    }
  }

  lemma {:induction false} StoppedEarly(env: Env, st: State, route: Route, sender: Bytes, introduced: seq<Bytes>, rs: seq<Rec>, k: nat)
    requires k <= |rs| && HandleAll(env, st, route, sender, introduced, rs[..k]).threw
    ensures HandleAll(env, st, route, sender, introduced, rs) == HandleAll(env, st, route, sender, introduced, rs[..k])
    decreases |rs|
  {
    if k < |rs| {
      hide HandleOne;
      assert rs[..|rs| - 1][..k] == rs[..k];
      StoppedEarly(env, st, route, sender, introduced, rs[..|rs| - 1], k);
    } else {
      assert rs[..k] == rs;
    }
  }
}
