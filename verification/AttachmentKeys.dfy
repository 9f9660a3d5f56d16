/**
 How an attachment's key reaches its row (note_incoming_attachment in client/messaging_engine.cpp, add_attachment and
 grant_attachment in client/history_store.cpp). The record may come from the chat's archive, which never holds the key,
 or in an envelope, which does, and either may come first, or again.
 */
module AttachmentKeys {
  import opened Wire

  const RECENT := 3600

  datatype Grant = Grant(fileId: Bytes, key: Bytes, token: Bytes)
  datatype State = Available | Expired | Unavailable
  datatype Note = NoNote | Waiting | ForeignRelay

  // What the record and the sender's card say, all fixed: whether the address parses, and whether it is the sender's own relay.
  datatype Info = Info(fileId: Bytes, outgoing: bool, sentAt: int, expiresAt: int, addressOk: bool, sendersRelay: bool)

  datatype Row = Row(outgoing: bool, key: Bytes, token: Bytes, state: State, note: Note)

  // The grant that counts: the last one for this file.
  function GrantFor(grants: seq<Grant>, fileId: Bytes): Option<Grant>
    decreases |grants|
  {
    if grants == [] then None
    else if grants[|grants| - 1].fileId == fileId then Some(grants[|grants| - 1])
    else GrantFor(grants[..|grants| - 1], fileId)
  }

  // Grant i is the last one in the list for this file.
  predicate LastFor(grants: seq<Grant>, fileId: Bytes, i: int) {
    0 <= i < |grants| && grants[i].fileId == fileId && forall j :: i < j < |grants| ==> grants[j].fileId != fileId
  }

  predicate Granted(grants: seq<Grant>, fileId: Bytes) {
    exists i :: 0 <= i < |grants| && grants[i].fileId == fileId
  }

  lemma {:induction false} GrantIsLast(grants: seq<Grant>, fileId: Bytes)
    ensures GrantFor(grants, fileId).Some? <==> Granted(grants, fileId)
    ensures forall i :: LastFor(grants, fileId, i) ==> GrantFor(grants, fileId) == Some(grants[i])
    decreases |grants|
  {
    if grants != [] {
      var front := grants[..|grants| - 1];
      GrantIsLast(front, fileId);
      assert grants == front + [grants[|grants| - 1]];
      forall i | LastFor(grants, fileId, i) ensures GrantFor(grants, fileId) == Some(grants[i]) {
        if i < |front| { assert LastFor(front, fileId, i); }
      }
    }
  }

  method FindGrant(grants: seq<Grant>, fileId: Bytes) returns (found: Option<Grant>)
    ensures found == GrantFor(grants, fileId)
    ensures found.Some? <==> Granted(grants, fileId)
    ensures forall i :: LastFor(grants, fileId, i) ==> found == Some(grants[i])
  {
    found := None;
    var i := 0;
    while i < |grants|
      invariant 0 <= i <= |grants| && found == GrantFor(grants[..i], fileId)
    {
      assert grants[..i + 1][..i] == grants[..i];
      if grants[i].fileId == fileId { found := Some(grants[i]); }
      i := i + 1;
    }
    assert grants[..i] == grants;
    GrantIsLast(grants, fileId);
  }

  // The row a copy of the record with these grants would make.
  function Made(info: Info, now: int, grants: seq<Grant>): Row {
    var g := GrantFor(grants, info.fileId);
    var key, token := if g.Some? then g.value.key else [], if g.Some? then g.value.token else [];
    var granted := g.Some? && info.addressOk;
    var note := if !granted && !info.outgoing && now - info.sentAt < RECENT then Waiting else NoNote;
    if !granted then Row(info.outgoing, key, token, Unavailable, note)
    else if !info.outgoing && !info.sendersRelay then Row(info.outgoing, key, token, Unavailable, ForeignRelay)
    else Row(info.outgoing, key, token, if info.expiresAt <= now then Expired else Available, note)
  }

  // note_incoming_attachment: a row already there is only ever given the key it lacks.
  function Noted(row: Option<Row>, info: Info, now: int, grants: seq<Grant>): Row {
    var made := Made(info, now, grants);
    if row.None? then made
    else
      var held := row.value;
      if !held.outgoing && held.state == Unavailable && held.key == [] && made.state != Unavailable && held.token == []
      then Row(held.outgoing, made.key, made.token, made.state, made.note) else held
  }

  // A copy of the record, when it comes: the archive's has no grants.
  datatype Copy = Copy(now: int, grants: seq<Grant>)

  // A copy of the record arrives: the first is stored and noted, a later one is noted only if it brought grants.
  function Arrive(row: Option<Row>, info: Info, c: Copy): Option<Row> {
    if row.None? || c.grants != [] then Some(Noted(row, info, c.now, c.grants)) else row
  }

  function ArriveAll(info: Info, copies: seq<Copy>): Option<Row>
    decreases |copies|
  {
    if copies == [] then None else Arrive(ArriveAll(info, copies[..|copies| - 1]), info, copies[|copies| - 1])
  }

  // The grant can be used: it is there, and the file is on the sender's own relay.
  predicate Usable(info: Info, grants: seq<Grant>) {
    Granted(grants, info.fileId) && info.addressOk && (info.outgoing || info.sendersRelay)
  }

  // Every copy is the archive's, or the envelope's with its grants.
  predicate Copies(copies: seq<Copy>, grants: seq<Grant>) {
    forall i :: 0 <= i < |copies| ==> copies[i].grants == [] || copies[i].grants == grants
  }

  predicate Real(grants: seq<Grant>) {
    forall i :: 0 <= i < |grants| ==> grants[i].key != [] && grants[i].token != []
  }

  // The copy that decides: the first envelope if its grant is of use, and otherwise the first copy of all.
  predicate Decides(info: Info, copies: seq<Copy>, k: int) {
    && 0 <= k < |copies|
    && if !info.outgoing && exists i :: 0 <= i < |copies| && Usable(info, copies[i].grants)
       then Usable(info, copies[k].grants) && forall j :: 0 <= j < k ==> !Usable(info, copies[j].grants)
       else k == 0
  }

  // What the row must say, for the copy that decides.
  ghost predicate Says(row: Row, info: Info, c: Copy) {
    var granted, recent := Granted(c.grants, info.fileId), c.now - info.sentAt < RECENT;
    && row.outgoing == info.outgoing
    && (forall i :: LastFor(c.grants, info.fileId, i) ==> row.key == c.grants[i].key && row.token == c.grants[i].token)
    && (!granted ==> row.key == [] && row.token == [])
    && (row.state == Available <==> Usable(info, c.grants) && c.now < info.expiresAt)
    && (row.state == Expired <==> Usable(info, c.grants) && info.expiresAt <= c.now)
    && (row.note == Waiting <==> !info.outgoing && recent && !(granted && info.addressOk))
    && (row.note == ForeignRelay <==> !info.outgoing && granted && info.addressOk && !info.sendersRelay)
  }

  lemma MadeSays(info: Info, c: Copy)
    ensures Says(Made(info, c.now, c.grants), info, c)
    ensures Made(info, c.now, c.grants).state == Unavailable <==> !Usable(info, c.grants)
    ensures Made(info, c.now, c.grants).outgoing == info.outgoing
  {
    hide GrantFor, LastFor, Granted;
    GrantIsLast(c.grants, info.fileId);
  }

  lemma {:induction false} GrantReal(grants: seq<Grant>, fileId: Bytes)
    requires Real(grants)
    ensures GrantFor(grants, fileId).Some? ==> GrantFor(grants, fileId).value.key != [] && GrantFor(grants, fileId).value.token != []
    decreases |grants|
  {
    if grants != [] { GrantReal(grants[..|grants| - 1], fileId); }
  }

  // A row that some copy made, and the next copy: it changes only from one without a key to one that can be fetched.
  lemma ArriveStep(info: Info, grants: seq<Grant>, made: Copy, c: Copy)
    requires Real(grants) && (made.grants == [] || made.grants == grants) && (c.grants == [] || c.grants == grants)
    ensures Arrive(Some(Made(info, made.now, made.grants)), info, c) ==
              Some(if !info.outgoing && !Usable(info, made.grants) && Usable(info, c.grants) then Made(info, c.now, c.grants) else Made(info, made.now, made.grants))
  {
    hide GrantFor, Granted;
    GrantReal(grants, info.fileId);
    GrantIsLast(grants, info.fileId);
    GrantIsLast([], info.fileId);
    NoGrant(info);
  }

  lemma NoGrant(info: Info)
    ensures GrantFor([], info.fileId) == None && !Granted([], info.fileId)
  {
  }

  lemma {:induction false} DecidingCopy(info: Info, grants: seq<Grant>, copies: seq<Copy>) returns (k: nat)
    requires Real(grants) && Copies(copies, grants) && copies != []
    ensures Decides(info, copies, k) && ArriveAll(info, copies) == Some(Made(info, copies[k].now, copies[k].grants))
    decreases |copies|
  {
    hide Made, Usable, Real;
    var front, last := copies[..|copies| - 1], copies[|copies| - 1];
    assert copies == front + [last];
    if front == [] {
      assert ArriveAll(info, front) == None;
      k := 0;
    } else {
      hide Arrive;
      k := DecidingCopy(info, grants, front);
      ArriveStep(info, grants, front[k], last);
      if !info.outgoing && !Usable(info, front[k].grants) && Usable(info, last.grants) { k := |front|; }
    }
  }

  // However often and in whatever order the copies come, and whenever, there is one that decides, and the row has the key
  // and token of the last grant in it for this file, the state it says, and the note it says.
  lemma AnyOrder(info: Info, grants: seq<Grant>, copies: seq<Copy>)
    requires Real(grants) && Copies(copies, grants) && copies != []
    ensures ArriveAll(info, copies).Some? && exists k :: Decides(info, copies, k) && Says(ArriveAll(info, copies).value, info, copies[k])
  {
    hide ArriveAll, Made, Says;
    var k := DecidingCopy(info, grants, copies);
    MadeSays(info, copies[k]);
  }

  // Which of the two comes first makes no difference exactly when the grant is usable, or there is none for this file.
  lemma OrderIrrelevant(info: Info, now: int, grants: seq<Grant>)
    requires !info.outgoing && Real(grants)
    ensures ArriveAll(info, [Copy(now, []), Copy(now, grants)]) == ArriveAll(info, [Copy(now, grants), Copy(now, [])]) <==>
              Usable(info, grants) || !Granted(grants, info.fileId)
  {
    hide Granted;
    GrantReal(grants, info.fileId);
    GrantIsLast(grants, info.fileId);
    NoGrant(info);
    TwoCopies(info, Copy(now, []), Copy(now, grants));
    TwoCopies(info, Copy(now, grants), Copy(now, []));
  }

  lemma TwoCopies(info: Info, a: Copy, b: Copy)
    ensures ArriveAll(info, [a, b]) == Arrive(Arrive(None, info, a), info, b)
  {
    hide Arrive;
    assert [a, b][..|[a, b]| - 1] == [a] && [a][..|[a]| - 1] == [];
    assert ArriveAll(info, [a]) == Arrive(None, info, a);
  }
}
