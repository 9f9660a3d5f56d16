/**
 Strict UTF-8 (decode_utf8 and append_utf8 in client/attachment.cpp; section 4 of RFC 3629): the shortest form of every
 code point up to U+10FFFF that is not a surrogate, and nothing else.
 */
module Utf8 {
  import opened Wire

  predicate Scalar(cp: int) {
    0 <= cp <= 0x10FFFF && !(0xD800 <= cp <= 0xDFFF)
  }

  predicate Continuation(b: int) {
    0x80 <= b < 0xC0
  }

  // append_utf8, for one code point.
  function Put(cp: int): Bytes
    requires Scalar(cp)
  {
    if cp < 0x80 then [cp]
    else if cp < 0x800 then [0xC0 + cp / 64, 0x80 + cp % 64]
    else if cp < 0x10000 then [0xE0 + cp / 4096, 0x80 + cp / 64 % 64, 0x80 + cp % 64]
    else [0xF0 + cp / 262144, 0x80 + cp / 4096 % 64, 0x80 + cp / 64 % 64, 0x80 + cp % 64]
  }

  predicate Scalars(cps: seq<int>) {
    forall i :: 0 <= i < |cps| ==> Scalar(cps[i])
  }

  function Encode(cps: seq<int>): Bytes
    requires Scalars(cps)
  {
    if cps == [] then [] else Put(cps[0]) + Encode(cps[1..])
  }

  // The length the first byte announces; 0 if it can begin nothing.
  function Announced(b: int): nat {
    if b < 0x80 then 1 else if 0xC0 <= b < 0xE0 then 2 else if 0xE0 <= b < 0xF0 then 3 else if 0xF0 <= b < 0xF8 then 4 else 0
  }

  function FirstBits(b: int): int {
    if b < 0x80 then b else if b < 0xE0 then b - 0xC0 else if b < 0xF0 then b - 0xE0 else b - 0xF0
  }

  function Shortest(len: int): int {
    if len == 2 then 0x80 else if len == 3 then 0x800 else if len == 4 then 0x10000 else 0
  }

  // The bits of the bytes after the first, or nothing if one of them is not a continuation.
  function Continue(cp: int, rest: Bytes): Option<int>
    decreases |rest|
  {
    if rest == [] then Some(cp)
    else
      match Continue(cp, rest[..|rest| - 1])
      case None => None
      case Some(c) => if Continuation(rest[|rest| - 1]) then Some(c * 64 + (rest[|rest| - 1] as int - 0x80)) else None
  }

  function First(s: Bytes): Option<int>
    requires s != []
  {
    var len := Announced(s[0]);
    if len == 0 || len > |s| then None
    else
      match Continue(FirstBits(s[0]), s[1..len])
      case None => None
      case Some(cp) => if cp >= Shortest(len) && Scalar(cp) then Some(cp) else None
  }

  function Decode(s: Bytes): Option<seq<int>>
    decreases |s|
  {
    if s == [] then Some([])
    else if First(s).None? then None
    else
      match Decode(s[Announced(s[0])..])
      case None => None
      case Some(cps) => Some([First(s).value] + cps)
  }

  // The value of two, three or four bytes taken together.
  function Join2(a: int, b: int): int { (a - 0xC0) * 64 + (b - 0x80) }

  function Join3(a: int, b: int, c: int): int { ((a - 0xE0) * 64 + (b - 0x80)) * 64 + (c - 0x80) }

  function Join4(a: int, b: int, c: int, d: int): int { (((a - 0xF0) * 64 + (b - 0x80)) * 64 + (c - 0x80)) * 64 + (d - 0x80) }

  lemma Continue1(cp: int, rest: Bytes)
    requires |rest| == 1
    ensures Continue(cp, rest) == if Continuation(rest[0]) then Some(cp * 64 + (rest[0] as int - 0x80)) else None
  {
    assert rest[..0] == [];
  }

  lemma Continue2(cp: int, rest: Bytes)
    requires |rest| == 2
    ensures Continue(cp, rest) == if Continuation(rest[0]) && Continuation(rest[1])
                                  then Some((cp * 64 + (rest[0] as int - 0x80)) * 64 + (rest[1] as int - 0x80)) else None
  {
    Continue1(cp, rest[..1]);
  }

  lemma Continue3(cp: int, rest: Bytes)
    requires |rest| == 3
    ensures Continue(cp, rest) == if Continuation(rest[0]) && Continuation(rest[1]) && Continuation(rest[2])
                                  then Some(((cp * 64 + (rest[0] as int - 0x80)) * 64 + (rest[1] as int - 0x80)) * 64 + (rest[2] as int - 0x80)) else None
  {
    Continue2(cp, rest[..2]);
  }

  function Checked(cp: int, len: int): Option<int> {
    if cp >= Shortest(len) && Scalar(cp) then Some(cp) else None
  }

  lemma First1(s: Bytes)
    requires s != [] && Announced(s[0]) == 1
    ensures First(s) == Checked(s[0], 1)
  {
    assert s[1..1] == [];
  }

  lemma First2(s: Bytes)
    requires |s| >= 2 && Announced(s[0]) == 2
    ensures First(s) == if Continuation(s[1]) then Checked(Join2(s[0], s[1]), 2) else None
  {
    hide Continue;
    Continue1(FirstBits(s[0]), s[1..2]);
  }

  lemma First3(s: Bytes)
    requires |s| >= 3 && Announced(s[0]) == 3
    ensures First(s) == if Continuation(s[1]) && Continuation(s[2]) then Checked(Join3(s[0], s[1], s[2]), 3) else None
  {
    hide Continue;
    Continue2(FirstBits(s[0]), s[1..3]);
  }

  lemma First4(s: Bytes)
    requires |s| >= 4 && Announced(s[0]) == 4
    ensures First(s) == if Continuation(s[1]) && Continuation(s[2]) && Continuation(s[3]) then Checked(Join4(s[0], s[1], s[2], s[3]), 4) else None
  {
    hide Continue;
    Continue3(FirstBits(s[0]), s[1..4]);
  }

  // What is written for a code point is read back as it, whatever follows.
  lemma PutReads(cp: int, rest: Bytes)
    requires Scalar(cp)
    ensures First(Put(cp) + rest) == Some(cp) && Announced(Put(cp)[0]) == |Put(cp)|
  {
    hide First;
    var s := Put(cp) + rest;
    if cp < 0x80 { First1(s); }
    else if cp < 0x800 { First2(s); }
    else if cp < 0x10000 { First3(s); Split3(cp); }
    else { First4(s); Split4(cp); }
  }

  lemma Split3(cp: int)
    requires 0x800 <= cp < 0x10000
    ensures Join3(0xE0 + cp / 4096, 0x80 + cp / 64 % 64, 0x80 + cp % 64) == cp
  {
    assert cp / 64 / 64 == cp / 4096;
  }

  lemma Split4(cp: int)
    requires 0x10000 <= cp <= 0x10FFFF
    ensures Join4(0xF0 + cp / 262144, 0x80 + cp / 4096 % 64, 0x80 + cp / 64 % 64, 0x80 + cp % 64) == cp
  {
    assert cp / 64 / 64 == cp / 4096 && cp / 4096 / 64 == cp / 262144;
  }

  lemma Unsplit3(a: int, b: int, c: int)
    requires Announced(a) == 3 && Continuation(b) && Continuation(c) && Join3(a, b, c) >= 0x800
    ensures var cp := Join3(a, b, c); cp < 0x10000 && a == 0xE0 + cp / 4096 && b == 0x80 + cp / 64 % 64 && c == 0x80 + cp % 64
  {
    var p, q, r := a - 0xE0, b - 0x80, c - 0x80;
    assert Join3(a, b, c) == (p * 64 + q) * 64 + r;
    LowBits(p * 64 + q, r);
    LowBits(p, q);
    Quotients((p * 64 + q) * 64 + r);
  }

  lemma LowBits(n: int, r: int)
    requires 0 <= r < 64
    ensures (n * 64 + r) / 64 == n && (n * 64 + r) % 64 == r
  {
  }

  lemma Quotients(n: int)
    ensures n / 64 / 64 == n / 4096 && n / 4096 / 64 == n / 262144
  {
  }

  lemma Unsplit4(a: int, b: int, c: int, d: int)
    requires Announced(a) == 4 && Continuation(b) && Continuation(c) && Continuation(d) && Join4(a, b, c, d) >= 0x10000
    ensures var cp := Join4(a, b, c, d); a == 0xF0 + cp / 262144 && b == 0x80 + cp / 4096 % 64 && c == 0x80 + cp / 64 % 64 && d == 0x80 + cp % 64
  {
    var p, q, r, t := a - 0xF0, b - 0x80, c - 0x80, d - 0x80;
    assert Join4(a, b, c, d) == ((p * 64 + q) * 64 + r) * 64 + t;
    LowBits((p * 64 + q) * 64 + r, t);
    LowBits(p * 64 + q, r);
    LowBits(p, q);
    Quotients(((p * 64 + q) * 64 + r) * 64 + t);
  }

  // What is read as a code point is exactly what would have been written for it.
  lemma FirstWritten(s: Bytes)
    requires s != [] && First(s).Some?
    ensures Scalar(First(s).value) && Announced(s[0]) <= |s| && s[..Announced(s[0])] == Put(First(s).value)
  {
    hide Continue;
    var len := Announced(s[0]);
    var cp := First(s).value;
    if len == 1 { First1(s); }
    else if len == 2 { First2(s); assert [s[0], s[1]] == Put(cp); }
    else if len == 3 { First3(s); Unsplit3(s[0], s[1], s[2]); assert [s[0], s[1], s[2]] == Put(cp); }
    else { First4(s); Unsplit4(s[0], s[1], s[2], s[3]); assert [s[0], s[1], s[2], s[3]] == Put(cp); }
  }

  lemma DecodeStep(head: Bytes, tail: Bytes)
    requires head != [] && First(head + tail).Some? && Announced(head[0]) == |head| && Decode(tail).Some?
    ensures Decode(head + tail) == Some([First(head + tail).value] + Decode(tail).value)
  {
    hide First, Announced;
    assert (head + tail)[0] == head[0] && (head + tail)[|head|..] == tail;
  }

  // The two are each other's inverse, on all lists of code points and on all byte strings that decode.
  lemma {:induction false} DecodeEncode(cps: seq<int>)
    requires Scalars(cps)
    ensures Decode(Encode(cps)) == Some(cps)
    decreases |cps|
  {
    if cps != [] {
      PutReads(cps[0], Encode(cps[1..]));
      DecodeEncode(cps[1..]);
      DecodeStep(Put(cps[0]), Encode(cps[1..]));
      assert cps == [cps[0]] + cps[1..];
    }
  }

  lemma DecodeSplit(s: Bytes) returns (cp: int, rest: Bytes)
    requires s != [] && Decode(s).Some?
    ensures Scalar(cp) && s == Put(cp) + rest && |rest| < |s|
    ensures Decode(rest).Some? && Decode(s).value == [cp] + Decode(rest).value
  {
    var len := Announced(s[0]);
    FirstWritten(s);
    hide Put, First;
    cp, rest := First(s).value, s[len..];
    assert s == s[..len] + rest;
  }

  lemma {:induction false} EncodeDecode(s: Bytes)
    requires Decode(s).Some?
    ensures Scalars(Decode(s).value) && Encode(Decode(s).value) == s
    decreases |s|
  {
    if s != [] {
      hide Put, Decode, Encode;
      var cp, rest := DecodeSplit(s);
      EncodeDecode(rest);
      EncodeStep(cp, Decode(rest).value);
    }
  }

  lemma EncodeStep(cp: int, cps: seq<int>)
    requires Scalar(cp) && Scalars(cps)
    ensures Scalars([cp] + cps) && Encode([cp] + cps) == Put(cp) + Encode(cps)
  {
    hide Put;
    assert ([cp] + cps)[1..] == cps;
  }

  function Prepend(cps: seq<int>, rest: Option<seq<int>>): Option<seq<int>> {
    if rest.None? then None else Some(cps + rest.value)
  }

  lemma PrependNothing(rest: Option<seq<int>>)
    ensures Prepend([], rest) == rest
  {
    if rest.Some? { assert [] + rest.value == rest.value; }
  }

  lemma DecodeFrom(s: Bytes, i: nat, cps: seq<int>)
    requires i < |s|
    ensures var len, first := Announced(s[i]), First(s[i..]);
            Prepend(cps, Decode(s[i..])) == if first.None? then None else Prepend(cps + [first.value], Decode(s[i + len..]))
  {
    var len, t := Announced(s[i]), s[i..];
    assert t[0] == s[i];
    if First(t).Some? {
      assert t[len..] == s[i + len..];
      hide First, Announced;
      if Decode(t[len..]).Some? {
        var rest := Decode(t[len..]).value;
        assert cps + ([First(t).value] + rest) == (cps + [First(t).value]) + rest;
      }
    }
  }

  // decode_utf8's loops over the bytes of a string.
  method DecodeUtf8(s: Bytes) returns (out: Option<seq<int>>)
    ensures out == Decode(s)
  {
    var i, cps := 0, [];
    assert s[0..] == s;
    PrependNothing(Decode(s));
    hide Decode, Continue;
    while i < |s|
      invariant 0 <= i <= |s|
      invariant Decode(s) == Prepend(cps, Decode(s[i..]))
    {
      DecodeFrom(s, i, cps);
      var len := Announced(s[i]);
      if len == 0 || i + len > |s| { return None; }
      var cp := ReadContinuation(FirstBits(s[i]), s[i + 1..i + len]);
      assert s[i..][1..len] == s[i + 1..i + len];
      if cp.None? || cp.value < Shortest(len) || !Scalar(cp.value) { return None; }
      cps := cps + [cp.value];
      i := i + len;
    }
    DecodeNothing(s[i..]);
    assert cps + [] == cps;
    return Some(cps);
  }

  lemma DecodeNothing(s: Bytes)
    requires s == []
    ensures Decode(s) == Some([])
  {
  }

  method ReadContinuation(first: int, rest: Bytes) returns (cp: Option<int>)
    ensures cp == Continue(first, rest)
  {
    var k, c := 0, first;
    assert rest[..0] == [];
    while k < |rest|
      invariant 0 <= k <= |rest| && Continue(first, rest[..k]) == Some(c)
    {
      assert rest[..k + 1][..k] == rest[..k];
      if !Continuation(rest[k]) {
        Broken(first, rest, k + 1);
        return None;
      }
      c := c * 64 + (rest[k] as int - 0x80);
      k := k + 1;
    }
    assert rest[..k] == rest;
    return Some(c);
  }

  lemma {:induction false} Broken(first: int, rest: Bytes, k: nat)
    requires k <= |rest| && Continue(first, rest[..k]).None?
    ensures Continue(first, rest).None?
    decreases |rest|
  {
    if k < |rest| {
      assert rest[..|rest| - 1][..k] == rest[..k];
      Broken(first, rest[..|rest| - 1], k);
    } else {
      assert rest[..k] == rest;
    }
  }

  // ---- Cutting a string between characters ----

  lemma {:induction false} EncodeJoin(a: seq<int>, b: seq<int>)
    requires Scalars(a) && Scalars(b)
    ensures Scalars(a + b) && Encode(a + b) == Encode(a) + Encode(b)
    decreases |a|
  {
    if a == [] {
      assert a + b == b;
    } else {
      hide Put;
      EncodeJoin(a[1..], b);
      assert (a + b)[1..] == a[1..] + b && (a + b)[0] == a[0];
    }
  }

  lemma PutShape(cp: int)
    requires Scalar(cp)
    ensures 1 <= |Put(cp)| <= 4 && !Continuation(Put(cp)[0]) && forall i :: 1 <= i < |Put(cp)| ==> Continuation(Put(cp)[i])
  {
  }

  lemma PastHead(head: Bytes, tail: Bytes, k: nat)
    requires 1 <= k <= |head + tail| && (k < |head + tail| ==> !Continuation((head + tail)[k]))
    requires forall i :: 1 <= i < |head| ==> Continuation(head[i])
    ensures |head| <= k
  {
  }

  // A place whose byte is not a continuation lies between two characters.
  lemma {:induction false} CutAt(cps: seq<int>, k: nat) returns (j: nat)
    requires Scalars(cps) && k <= |Encode(cps)| && (k < |Encode(cps)| ==> !Continuation(Encode(cps)[k]))
    ensures j <= |cps| && Encode(cps)[..k] == Encode(cps[..j]) && Encode(cps)[k..] == Encode(cps[j..])
    decreases |cps|
  {
    if k == 0 {
      assert cps[0..] == cps;
      return 0;
    }
    var head, tail := Put(cps[0]), Encode(cps[1..]);
    PutShape(cps[0]);
    assert Encode(cps) == head + tail;
    PastHead(head, tail, k);
    hide Put;
    var i := CutAt(cps[1..], k - |head|);
    j := i + 1;
    CutMore(cps, i);
    Sliced(head, tail, k);
  }

  lemma Sliced(head: Bytes, tail: Bytes, k: nat)
    requires |head| <= k <= |head + tail|
    ensures (head + tail)[..k] == head + tail[..k - |head|] && (head + tail)[k..] == tail[k - |head|..]
  {
  }

  lemma CutMore(cps: seq<int>, i: nat)
    requires Scalars(cps) && i < |cps|
    ensures Encode(cps[..i + 1]) == Put(cps[0]) + Encode(cps[1..][..i]) && cps[i + 1..] == cps[1..][i..]
  {
    hide Put;
    assert cps[..i + 1][1..] == cps[1..][..i];
  }

  // A character begins at or at most three bytes before any place.
  lemma {:induction false} StartNear(cps: seq<int>, k: nat) returns (j: nat)
    requires Scalars(cps) && k < |Encode(cps)|
    ensures k < j + 4 && j <= k && !Continuation(Encode(cps)[j])
    decreases |cps|
  {
    var head, tail := Put(cps[0]), Encode(cps[1..]);
    PutShape(cps[0]);
    assert Encode(cps) == head + tail;
    hide Put;
    if k < |head| {
      j := 0;
    } else {
      var i := StartNear(cps[1..], k - |head|);
      j := i + |head|;
    }
  }
}
