/**
 Delivery of outgoing messages, per member and overall (raise_delivery and deliveries in client/history_store.cpp).
 */
module Delivery {
  import opened Wire

  // Queued, Sent, Delivered, Read.
  type Status = s: int | 0 <= s <= 3

  datatype Key = Key(conv: Bytes, message: Bytes)
  datatype Message = Message(outgoing: bool, status: Status)
  datatype Call = Call(key: Key, member: Bytes, status: Status)

  datatype Tables = Tables(members: map<Bytes, seq<Bytes>>, messages: map<Key, Message>, deliveries: map<(Key, Bytes), Status>)

  function Max(a: int, b: int): int { if a < b then b else a }

  // A member without a row is Queued.
  function View(deliveries: map<(Key, Bytes), Status>, key: Key, member: Bytes): Status {
    if (key, member) in deliveries then deliveries[(key, member)] else 0
  }

  function Lowest(deliveries: map<(Key, Bytes), Status>, key: Key, members: seq<Bytes>): Status
    requires members != []
    decreases |members|
  {
    var last := View(deliveries, key, members[|members| - 1]);
    if |members| == 1 then last
    else
      var rest := Lowest(deliveries, key, members[..|members| - 1]);
      if rest < last then rest else last
  }

  // One of our own messages, and someone it was sent to.
  predicate Counts(t: Tables, call: Call) {
    && call.key in t.messages && t.messages[call.key].outgoing
    && call.key.conv in t.members && call.member in t.members[call.key.conv]
  }

  function Raise(t: Tables, call: Call): Tables {
    if !Counts(t, call) then t
    else
      var row := (call.key, call.member);
      var deliveries := if row in t.deliveries && call.status <= t.deliveries[row] then t.deliveries else t.deliveries[row := call.status];
      var lowest := Lowest(deliveries, call.key, t.members[call.key.conv]);
      var m := t.messages[call.key];
      Tables(t.members, if m.status < lowest then t.messages[call.key := m.(status := lowest)] else t.messages, deliveries)
  }

  function RaiseAll(t: Tables, calls: seq<Call>): Tables
    decreases |calls|
  {
    if calls == [] then t else Raise(RaiseAll(t, calls[..|calls| - 1]), calls[|calls| - 1])
  }

  // ---- What a list of calls comes to ----

  // The highest status given to a member for a message, or -1 if none was.
  function Highest(calls: seq<Call>, key: Key, member: Bytes): int
    decreases |calls|
  {
    if calls == [] then -1
    else
      var c, rest := calls[|calls| - 1], Highest(calls[..|calls| - 1], key, member);
      if c.key == key && c.member == member then Max(rest, c.status) else rest
  }

  lemma {:induction false} HighestIs(calls: seq<Call>, key: Key, member: Bytes)
    ensures -1 <= Highest(calls, key, member) <= 3
    ensures forall c :: c in calls && c.key == key && c.member == member ==> c.status <= Highest(calls, key, member)
    ensures Highest(calls, key, member) >= 0 ==> Call(key, member, Highest(calls, key, member)) in calls
    decreases |calls|
  {
    if calls != [] {
      HighestIs(calls[..|calls| - 1], key, member);
      assert calls == calls[..|calls| - 1] + [calls[|calls| - 1]];
    }
  }

  ghost predicate SameCalls(a: seq<Call>, b: seq<Call>) {
    forall c :: c in a <==> c in b
  }

  lemma HighestSame(a: seq<Call>, b: seq<Call>, key: Key, member: Bytes)
    requires SameCalls(a, b)
    ensures Highest(a, key, member) == Highest(b, key, member)
  {
    HighestIs(a, key, member);
    HighestIs(b, key, member);
  }

  predicate Eligible(t: Tables, key: Key, member: Bytes) {
    key in t.messages && t.messages[key].outgoing && key.conv in t.members && member in t.members[key.conv]
  }

  // Each member's row after the calls: the highest they and what was there gave, and none that was not asked for.
  predicate RowsAre(t: Tables, calls: seq<Call>, after: map<(Key, Bytes), Status>, key: Key, member: Bytes) {
    var given := if Eligible(t, key, member) then Highest(calls, key, member) else -1;
    && ((key, member) in after <==> (key, member) in t.deliveries || given >= 0)
    && ((key, member) in after ==> after[(key, member)] == Max(given, if (key, member) in t.deliveries then t.deliveries[(key, member)] else -1))
  }

  lemma RaiseRow(t: Tables, call: Call, key: Key, member: Bytes)
    ensures RowsAre(t, [call], Raise(t, call).deliveries, key, member)
  {
    hide Lowest;
    OneCall(call, key, member);
    assert Counts(t, call) == Eligible(t, call.key, call.member);
  }

  lemma OneCall(call: Call, key: Key, member: Bytes)
    ensures Highest([call], key, member) == if call.key == key && call.member == member then call.status else -1
  {
    assert [call][..|[call]| - 1] == [];
  }

  lemma RaiseFixed(t: Tables, call: Call)
    ensures var t' := Raise(t, call);
            && t'.members == t.members && t'.messages.Keys == t.messages.Keys
            && forall k :: k in t.messages ==> t'.messages[k].outgoing == t.messages[k].outgoing
  {
    hide Lowest;
  }

  lemma {:induction false} RowsAfter(t: Tables, calls: seq<Call>, key: Key, member: Bytes)
    ensures var t' := RaiseAll(t, calls);
            && t'.members == t.members && t'.messages.Keys == t.messages.Keys
            && (forall k :: k in t.messages ==> t'.messages[k].outgoing == t.messages[k].outgoing)
            && RowsAre(t, calls, t'.deliveries, key, member)
    decreases |calls|
  {
    if calls != [] {
      hide Raise;
      var front, last := calls[..|calls| - 1], calls[|calls| - 1];
      var mid := RaiseAll(t, front);
      RowsAfter(t, front, key, member);
      RaiseFixed(mid, last);
      RaiseRow(mid, last, key, member);
      HighestIs(front, key, member);
      OneCall(last, key, member);
      assert Eligible(mid, key, member) == Eligible(t, key, member);
    }
  }

  // ---- The overall status ----

  lemma {:induction false} LowestGrows(a: map<(Key, Bytes), Status>, b: map<(Key, Bytes), Status>, key: Key, members: seq<Bytes>)
    requires members != [] && forall m :: View(a, key, m) <= View(b, key, m)
    ensures Lowest(a, key, members) <= Lowest(b, key, members)
    decreases |members|
  {
    if |members| > 1 {
      hide View;
      LowestGrows(a, b, key, members[..|members| - 1]);
    }
  }

  // The lowest over all members: no more than any of them, and one of them.
  lemma {:induction false} LowestIs(deliveries: map<(Key, Bytes), Status>, key: Key, members: seq<Bytes>)
    requires members != []
    ensures forall m :: m in members ==> Lowest(deliveries, key, members) <= View(deliveries, key, m)
    ensures exists m :: m in members && Lowest(deliveries, key, members) == View(deliveries, key, m)
    decreases |members|
  {
    hide View;
    if |members| > 1 {
      LowestIs(deliveries, key, members[..|members| - 1]);
      assert members == members[..|members| - 1] + [members[|members| - 1]];
    }
  }

  predicate Touched(t: Tables, calls: seq<Call>, key: Key) {
    exists c :: c in calls && c.key == key && Counts(t, c)
  }

  // The overall status is the higher of what it was and the lowest over the members, once anything counted.
  predicate StatusIs(t: Tables, calls: seq<Call>, t': Tables, key: Key)
    requires key in t.messages && key in t'.messages
  {
    if Touched(t, calls, key) && key.conv in t.members && t.members[key.conv] != []
    then t'.messages[key].status == Max(t.messages[key].status, Lowest(t'.deliveries, key, t.members[key.conv]))
    else t'.messages[key].status == t.messages[key].status
  }

  lemma RaiseGrows(t: Tables, call: Call, key: Key)
    requires key.conv in t.members && t.members[key.conv] != []
    ensures Lowest(t.deliveries, key, t.members[key.conv]) <= Lowest(Raise(t, call).deliveries, key, t.members[key.conv])
  {
    LowestGrows(t.deliveries, Raise(t, call).deliveries, key, t.members[key.conv]);
  }

  lemma RaiseStatus(t: Tables, call: Call, key: Key)
    requires key in t.messages
    ensures var t' := Raise(t, call);
            && key in t'.messages
            && t'.messages[key].status ==
               (if call.key == key && Counts(t, call) then Max(t.messages[key].status, Lowest(t'.deliveries, key, t.members[key.conv]))
                else t.messages[key].status)
            && (call.key != key || !Counts(t, call) ==> forall m :: View(t'.deliveries, key, m) == View(t.deliveries, key, m))
  {
    hide Lowest;
  }

  lemma {:induction false} StatusAfter(t: Tables, calls: seq<Call>, key: Key)
    requires key in t.messages
    ensures key in RaiseAll(t, calls).messages && StatusIs(t, calls, RaiseAll(t, calls), key)
    decreases |calls|
  {
    if calls != [] {
      var front, last := calls[..|calls| - 1], calls[|calls| - 1];
      var mid := RaiseAll(t, front);
      StatusAfter(t, front, key);
      RowsAfter(t, front, key, []);
      RaiseStatus(mid, last, key);
      CountsSame(t, mid, last);
      assert calls == front + [last];
      TouchedMore(t, front, last, key);
      if key.conv in t.members && t.members[key.conv] != [] {
        RaiseGrows(mid, last, key);
        if !(last.key == key && Counts(mid, last)) { StatusStep(t, mid, last, key); }
      }
    }
  }

  lemma CountsSame(t: Tables, t': Tables, c: Call)
    requires t'.members == t.members && t'.messages.Keys == t.messages.Keys && forall k :: k in t.messages ==> t'.messages[k].outgoing == t.messages[k].outgoing
    ensures Counts(t', c) == Counts(t, c)
  {
  }

  lemma TouchedMore(t: Tables, front: seq<Call>, last: Call, key: Key)
    ensures Touched(t, front + [last], key) <==> Touched(t, front, key) || (last.key == key && Counts(t, last))
  {
    if Touched(t, front, key) {
      var c :| c in front && c.key == key && Counts(t, c);
      assert c in front + [last];
    }
    assert last in front + [last];
  }

  lemma StatusStep(t: Tables, mid: Tables, last: Call, key: Key)
    requires key.conv in t.members && t.members[key.conv] != [] && key in mid.messages
    requires !(last.key == key && Counts(mid, last))
    ensures Lowest(Raise(mid, last).deliveries, key, t.members[key.conv]) == Lowest(mid.deliveries, key, t.members[key.conv])
  {
    RaiseStatus(mid, last, key);
    LowestGrows(mid.deliveries, Raise(mid, last).deliveries, key, t.members[key.conv]);
    LowestGrows(Raise(mid, last).deliveries, mid.deliveries, key, t.members[key.conv]);
  }

  // ---- The laws ----

  // Every call only ever raises, for every member and overall.
  lemma OnlyUp(t: Tables, calls: seq<Call>, key: Key, member: Bytes)
    requires key in t.messages
    ensures View(t.deliveries, key, member) <= View(RaiseAll(t, calls).deliveries, key, member)
    ensures key in RaiseAll(t, calls).messages && t.messages[key].status <= RaiseAll(t, calls).messages[key].status
  {
    hide RaiseAll, Lowest, Highest, Touched;
    RowsAfter(t, calls, key, member);
    StatusAfter(t, calls, key);
  }

  lemma GivenTouches(t: Tables, calls: seq<Call>, key: Key, member: Bytes)
    ensures Eligible(t, key, member) && Highest(calls, key, member) >= 0 ==> Touched(t, calls, key)
  {
    HighestIs(calls, key, member);
    var h := Highest(calls, key, member);
    if h >= 0 { assert Eligible(t, key, member) ==> Counts(t, Call(key, member, h)); }
  }

  // From a message nobody has confirmed yet, the overall status is always the higher of what it began with and the
  // lowest over all its members.
  lemma OverallIsLowest(t: Tables, calls: seq<Call>, key: Key)
    requires key in t.messages && t.messages[key].outgoing && key.conv in t.members && t.members[key.conv] != []
    requires forall m :: (key, m) !in t.deliveries
    ensures var t' := RaiseAll(t, calls);
            key in t'.messages && t'.messages[key].status == Max(t.messages[key].status, Lowest(t'.deliveries, key, t.members[key.conv]))
  {
    var t' := RaiseAll(t, calls);
    var members := t.members[key.conv];
    StatusAfter(t, calls, key);
    if !Touched(t, calls, key) {
      var m := members[0];
      hide RaiseAll, Highest;
      RowsAfter(t, calls, key, m);
      GivenTouches(t, calls, key, m);
      LowestIs(t'.deliveries, key, members);
    }
  }

  // Receipts may come in any order and any number of times: only which calls were made matters.
  lemma OrderDoesNotMatter(t: Tables, a: seq<Call>, b: seq<Call>)
    requires SameCalls(a, b)
    ensures RaiseAll(t, a) == RaiseAll(t, b)
  {
    hide RaiseAll, Lowest, Highest;
    var ta, tb := RaiseAll(t, a), RaiseAll(t, b);
    forall row: (Key, Bytes) ensures (row in ta.deliveries <==> row in tb.deliveries) && (row in ta.deliveries ==> ta.deliveries[row] == tb.deliveries[row]) {
      var (key, member) := row;
      RowsAfter(t, a, key, member);
      RowsAfter(t, b, key, member);
      HighestSame(a, b, key, member);
    }
    SameMessages(t, a, b);
    RowsAfter(t, a, Key([], []), []);
    RowsAfter(t, b, Key([], []), []);
  }

  lemma SameMessages(t: Tables, a: seq<Call>, b: seq<Call>)
    requires SameCalls(a, b) && RaiseAll(t, a).deliveries == RaiseAll(t, b).deliveries
    ensures RaiseAll(t, a).messages == RaiseAll(t, b).messages
  {
    hide RaiseAll, Lowest, Highest;
    var ma, mb := RaiseAll(t, a).messages, RaiseAll(t, b).messages;
    RowsAfter(t, a, Key([], []), []);
    RowsAfter(t, b, Key([], []), []);
    forall key | key in t.messages ensures ma[key] == mb[key] {
      StatusAfter(t, a, key);
      StatusAfter(t, b, key);
      assert Touched(t, a, key) == Touched(t, b, key);
    }
  }

  // ---- The tables ----

  class DeliveryTables {
    const members: map<Bytes, seq<Bytes>>
    var messages: map<Key, Message>
    var deliveries: map<(Key, Bytes), Status>

    ghost function Value(): Tables
      reads this
    {
      Tables(members, messages, deliveries)
    }

    constructor (members: map<Bytes, seq<Bytes>>, messages: map<Key, Message>)
      ensures Value() == Tables(members, messages, map[])
    {
      this.members, this.messages, deliveries := members, messages, map[];
    }

    method RaiseDelivery(call: Call) returns (changed: bool)
      modifies this`messages, this`deliveries
      ensures Value() == Raise(old(Value()), call)
      ensures changed <==> Value() != old(Value())
    {
      if call.key !in messages || !messages[call.key].outgoing { return false; }
      if call.key.conv !in members || call.member !in members[call.key.conv] { return false; }
      var row := (call.key, call.member);
      changed := false;
      if row !in deliveries || deliveries[row] < call.status {
        deliveries := deliveries[row := call.status];
        changed := true;
      }
      var all := members[call.key.conv];
      var lowest, i := View(deliveries, call.key, all[0]), 1;
      assert all[..1] == [all[0]];
      while i < |all|
        invariant 1 <= i <= |all| && lowest == Lowest(deliveries, call.key, all[..i])
      {
        assert all[..i + 1][..i] == all[..i];
        var next := View(deliveries, call.key, all[i]);
        if next <= lowest { lowest := next; }
        i := i + 1;
      }
      assert all[..i] == all;
      hide Lowest;
      if messages[call.key].status < lowest {
        messages := messages[call.key := messages[call.key].(status := lowest)];
        changed := true;
      }
      assert deliveries == old(deliveries) <==> row in old(deliveries) && call.status <= old(deliveries)[row];
    }
  }
}
