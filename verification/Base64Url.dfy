/**
 base64url without padding (client/sharing.cpp; section 5 of RFC 4648, with the canonical tails of its section 3.5).

 The encoder takes three bytes at a time. The decoder takes one symbol at a time into a 32-bit accumulator that wraps
 around, and never clears the bits it has used. The grouping of three bytes to four symbols is the simple form it
 refines.
 */
module Base64Url {
  import opened Wire

  function Digit(v: int): byte
    requires 0 <= v < 64
  {
    if v < 26 then 0x41 + v else if v < 52 then 0x61 + (v - 26) else if v < 62 then 0x30 + (v - 52) else if v == 62 then 0x2D else 0x5F
  }

  function Value(c: byte): (v: int)
    ensures -1 <= v < 64 && (v >= 0 ==> Digit(v) == c)
  {
    if 0x41 <= c <= 0x5A then c - 0x41
    else if 0x61 <= c <= 0x7A then c - 0x61 + 26
    else if 0x30 <= c <= 0x39 then c - 0x30 + 52
    else if c == 0x2D then 62
    else if c == 0x5F then 63
    else -1
  }

  lemma DigitValue(v: int)
    ensures 0 <= v < 64 ==> Value(Digit(v)) == v
  {
  }

  // ---- Groups ----

  function Four(a: int, b: int, c: int): Bytes
    requires 0 <= a < 256 && 0 <= b < 256 && 0 <= c < 256
  {
    [Digit(a / 4), Digit(a % 4 * 16 + b / 16), Digit(b % 16 * 4 + c / 64), Digit(c % 64)]
  }

  function Encode(s: Bytes): Bytes
    decreases |s|
  {
    if |s| >= 3 then Four(s[0], s[1], s[2]) + Encode(s[3..])
    else if |s| == 2 then Four(s[0], s[1], 0)[..3]
    else if |s| == 1 then Four(s[0], 0, 0)[..2]
    else []
  }

  function Three(p: int, q: int, r: int, t: int): Bytes
    requires 0 <= p < 64 && 0 <= q < 64 && 0 <= r < 64 && 0 <= t < 64
  {
    [p * 4 + q / 16, q % 16 * 16 + r / 4, r % 4 * 64 + t]
  }

  predicate Symbols(s: Bytes) {
    forall i :: 0 <= i < |s| ==> Value(s[i]) >= 0
  }

  // Nothing is left over in the last symbol of a short group.
  function Decode(s: Bytes): Option<Bytes>
    decreases |s|
  {
    if |s| >= 4 then
      if !Symbols(s[..4]) then None
      else
        match Decode(s[4..])
        case None => None
        case Some(rest) =>
          assert Value(s[0]) == Value(s[..4][0]) && Value(s[1]) == Value(s[..4][1]) && Value(s[2]) == Value(s[..4][2]) && Value(s[3]) == Value(s[..4][3]);
          Some(Three(Value(s[0]), Value(s[1]), Value(s[2]), Value(s[3])) + rest)
    else if |s| == 3 then
      if Symbols(s) && Value(s[2]) % 4 == 0 then Some(Three(Value(s[0]), Value(s[1]), Value(s[2]), 0)[..2]) else None
    else if |s| == 2 then
      if Symbols(s) && Value(s[1]) % 16 == 0 then Some(Three(Value(s[0]), Value(s[1]), 0, 0)[..1]) else None
    else if |s| == 1 then None
    else Some([])
  }

  lemma Split(a: int, b: int, c: int)
    requires 0 <= a < 256 && 0 <= b < 256 && 0 <= c < 256
    ensures var p, q, r, t := a / 4, a % 4 * 16 + b / 16, b % 16 * 4 + c / 64, c % 64;
            && 0 <= p < 64 && 0 <= q < 64 && 0 <= r < 64 && 0 <= t < 64
            && p * 4 + q / 16 == a && q % 16 * 16 + r / 4 == b && r % 4 * 64 + t == c
  {
  }

  lemma ThreeFour(a: int, b: int, c: int)
    requires 0 <= a < 256 && 0 <= b < 256 && 0 <= c < 256
    ensures Symbols(Four(a, b, c))
    ensures var f := Four(a, b, c); Three(Value(f[0]), Value(f[1]), Value(f[2]), Value(f[3])) == [a, b, c]
    ensures c == 0 ==> Value(Four(a, b, c)[2]) == b % 16 * 4 && Value(Four(a, b, c)[3]) == 0
    ensures b == 0 && c == 0 ==> Value(Four(a, b, c)[1]) == a % 4 * 16 && Value(Four(a, b, c)[2]) == 0
  {
    hide Digit, Value;
    var p, q, r, t := a / 4, a % 4 * 16 + b / 16, b % 16 * 4 + c / 64, c % 64;
    Split(a, b, c);
    DigitValue(p);
    DigitValue(q);
    DigitValue(r);
    DigitValue(t);
    assert Four(a, b, c) == [Digit(p), Digit(q), Digit(r), Digit(t)];
    assert Three(p, q, r, t) == [a, b, c];
  }

  lemma FourThree(s: Bytes)
    requires |s| == 4 && Symbols(s)
    ensures var t := Three(Value(s[0]), Value(s[1]), Value(s[2]), Value(s[3])); Four(t[0], t[1], t[2]) == s
  {
    hide Digit, Value;
    Regroup(Value(s[0]), Value(s[1]), Value(s[2]), Value(s[3]));
  }

  lemma Regroup(p: int, q: int, r: int, t: int)
    requires 0 <= p < 64 && 0 <= q < 64 && 0 <= r < 64 && 0 <= t < 64
    ensures var g := Three(p, q, r, t);
            g[0] / 4 == p && g[0] % 4 * 16 + g[1] / 16 == q && g[1] % 16 * 4 + g[2] / 64 == r && g[2] % 64 == t
  {
  }

  // Encoding loses nothing: every byte string comes back.
  lemma {:induction false} DecodeEncode(s: Bytes)
    ensures Decode(Encode(s)) == Some(s)
    decreases |s|
  {
    hide Digit, Value, Four, Three;
    if |s| >= 3 {
      var head, tail := Four(s[0], s[1], s[2]), Encode(s[3..]);
      ThreeFour(s[0], s[1], s[2]);
      DecodeEncode(s[3..]);
      FourLong(s[0], s[1], s[2]);
      assert (head + tail)[..4] == head && (head + tail)[4..] == tail;
      assert s == [s[0], s[1], s[2]] + s[3..];
    } else if |s| == 2 {
      ShortTwo(s);
    } else if |s| == 1 {
      ShortOne(s);
    }
  }

  lemma FourLong(a: int, b: int, c: int)
    requires 0 <= a < 256 && 0 <= b < 256 && 0 <= c < 256
    ensures |Four(a, b, c)| == 4
  {
  }

  lemma ShortTwo(s: Bytes)
    requires |s| == 2
    ensures Decode(Four(s[0], s[1], 0)[..3]) == Some(s)
  {
    ThreeFour(s[0], s[1], 0);
    hide Digit, Value;
    var f := Four(s[0], s[1], 0);
    assert Three(Value(f[0]), Value(f[1]), Value(f[2]), 0)[..2] == [s[0], s[1]] == s;
  }

  lemma ShortOne(s: Bytes)
    requires |s| == 1
    ensures Decode(Four(s[0], 0, 0)[..2]) == Some(s)
  {
    ThreeFour(s[0], 0, 0);
    hide Digit, Value;
    var f := Four(s[0], 0, 0);
    assert Three(Value(f[0]), Value(f[1]), 0, 0)[..1] == [s[0]] == s;
  }

  // Only what the encoder writes is accepted: every accepted text is the encoding of what it decodes to.
  lemma {:induction false} EncodeDecode(s: Bytes)
    requires Decode(s).Some?
    ensures Encode(Decode(s).value) == s
    decreases |s|
  {
    if |s| >= 4 {
      EncodeDecode(s[4..]);
      GroupBack(s);
    } else if |s| == 3 {
      LastThree(s);
    } else if |s| == 2 {
      LastTwo(s);
    }
  }

  lemma EncodeGroup(t: Bytes, rest: Bytes)
    requires |t| == 3
    ensures Encode(t + rest) == Four(t[0], t[1], t[2]) + Encode(rest)
  {
    hide Four;
    assert (t + rest)[3..] == rest;
  }

  lemma DecodeGroup(s: Bytes) returns (t: Bytes)
    requires |s| >= 4 && Decode(s).Some?
    ensures |t| == 3 && Decode(s[4..]).Some? && Decode(s).value == t + Decode(s[4..]).value && Four(t[0], t[1], t[2]) == s[..4]
  {
    FourThree(s[..4]);
    hide Digit, Value, Four;
    t := Three(Value(s[..4][0]), Value(s[..4][1]), Value(s[..4][2]), Value(s[..4][3]));
  }

  lemma GroupBack(s: Bytes)
    requires |s| >= 4 && Decode(s).Some? && Decode(s[4..]).Some? && Encode(Decode(s[4..]).value) == s[4..]
    ensures Encode(Decode(s).value) == s
  {
    hide Encode, Decode, Four;
    var t := DecodeGroup(s);
    EncodeGroup(t, Decode(s[4..]).value);
    assert s == s[..4] + s[4..];
  }

  lemma LastThree(s: Bytes)
    requires |s| == 3 && Decode(s).Some?
    ensures Encode(Decode(s).value) == s
  {
    hide Digit, Value, Four;
    var padded := s + [Digit(0)];
    DigitValue(0);
    FourThree(padded);
    var t := Three(Value(s[0]), Value(s[1]), Value(s[2]), 0);
    assert t[2] == 0 && Decode(s).value == [t[0], t[1]];
    assert padded[..3] == s;
  }

  lemma LastTwo(s: Bytes)
    requires |s| == 2 && Decode(s).Some?
    ensures Encode(Decode(s).value) == s
  {
    hide Digit, Value, Four;
    var padded := s + [Digit(0), Digit(0)];
    DigitValue(0);
    FourThree(padded);
    var t := Three(Value(s[0]), Value(s[1]), 0, 0);
    assert t[1] == 0 && t[2] == 0 && Decode(s).value == [t[0]];
    assert padded[..2] == s;
  }

  // ---- The accumulator ----

  function Pow(bits: int): int {
    if bits == 0 then 1 else if bits == 2 then 4 else if bits == 4 then 16 else 64
  }

  // One symbol at a time, with exactly the bits not yet given out.
  datatype Fed = Fed(out: Bytes, left: int, bits: int)

  predicate FedOk(f: Fed) {
    f.bits in {0, 2, 4, 6} && 0 <= f.left < Pow(f.bits)
  }

  function Feed(f: Fed, v: int): (r: Fed)
    requires FedOk(f) && 0 <= v < 64
    ensures FedOk(r)
  {
    if f.bits == 0 then Fed(f.out, v, 6)
    else Fed(f.out + [(f.left * 64 + v) / Pow(f.bits - 2)], (f.left * 64 + v) % Pow(f.bits - 2), f.bits - 2)
  }

  function FeedAll(f: Fed, s: Bytes): Fed
    requires FedOk(f) && Symbols(s)
    decreases |s|
  {
    if s == [] then f else Feed(FeedAll(f, s[..|s| - 1]), Value(s[|s| - 1]))
  }

  lemma Wrap(x: int, m: int, k: int, t: int) returns (y: int)
    requires k * m == TWO32 && 0 <= t < m
    ensures (x * m + t) % TWO32 == y * m + t
  {
    var all := x * m + t;
    var q := all / TWO32;
    y := x - q * k;
    assert y * m == x * m - q * (k * m);
  }

  // The accumulator takes a symbol: what does not fit into 32 bits is lost.
  function Shift(acc: int, v: int): int {
    (acc * 64 + v) % TWO32
  }

  // What has been used stays in the accumulator and does no harm: only the bits not yet given out matter.
  lemma Shift0(acc: int, v: int)
    requires 0 <= v < 64
    ensures Shift(acc, v) % 64 == v
  {
    var y := Wrap(acc, 64, 0x400_0000, v);
  }

  lemma Shift2(acc: int, left: int, v: int)
    requires acc % 4 == left && 0 <= v < 64
    ensures Shift(acc, v) % 256 == left * 64 + v
  {
    assert acc * 64 + v == acc / 4 * 256 + (left * 64 + v);
    var y := Wrap(acc / 4, 256, 0x100_0000, left * 64 + v);
  }

  lemma Shift4(acc: int, left: int, v: int)
    requires acc % 16 == left && 0 <= v < 64
    ensures Shift(acc, v) / 4 % 256 == (left * 64 + v) / 4 && Shift(acc, v) % 4 == (left * 64 + v) % 4
  {
    assert acc * 64 + v == acc / 16 * 1024 + (left * 64 + v);
    var y := Wrap(acc / 16, 1024, 0x40_0000, left * 64 + v);
    Extract4(y, left * 64 + v);
  }

  lemma Shift6(acc: int, left: int, v: int)
    requires acc % 64 == left && 0 <= v < 64
    ensures Shift(acc, v) / 16 % 256 == (left * 64 + v) / 16 && Shift(acc, v) % 16 == (left * 64 + v) % 16
  {
    assert acc * 64 + v == acc / 64 * 4096 + (left * 64 + v);
    var y := Wrap(acc / 64, 4096, 0x10_0000, left * 64 + v);
    Extract6(y, left * 64 + v);
  }

  lemma Extract4(y: int, t: int)
    requires 0 <= t < 1024
    ensures (y * 1024 + t) / 4 % 256 == t / 4 && (y * 1024 + t) % 4 == t % 4
  {
    assert (y * 1024 + t) / 4 == y * 256 + t / 4;
  }

  lemma Extract6(y: int, t: int)
    requires 0 <= t < 4096
    ensures (y * 4096 + t) / 16 % 256 == t / 16 && (y * 4096 + t) % 16 == t % 16
  {
    assert (y * 4096 + t) / 16 == y * 256 + t / 16;
  }

  lemma ShiftRefines(acc: int, f: Fed, v: int)
    requires FedOk(f) && acc % Pow(f.bits) == f.left && 0 <= v < 64
    ensures var f' := Feed(f, v);
            && Shift(acc, v) % Pow(f'.bits) == f'.left
            && (f.bits > 0 ==> f'.out == f.out + [Shift(acc, v) / Pow(f'.bits) % 256])
  {
    hide Shift;
    if f.bits == 0 { Shift0(acc, v); }
    else if f.bits == 2 { Shift2(acc, f.left, v); }
    else if f.bits == 4 { Shift4(acc, f.left, v); }
    else { Shift6(acc, f.left, v); }
  }

  // ---- The simple form it refines ----

  lemma {:induction false} FeedJoin(f: Fed, a: Bytes, b: Bytes)
    requires FedOk(f) && Symbols(a) && Symbols(b)
    ensures Symbols(a + b) && FedOk(FeedAll(f, a)) && FeedAll(f, a + b) == FeedAll(FeedAll(f, a), b)
    decreases |b|
  {
    FeedAllOk(f, a);
    if b == [] {
      assert a + b == a;
    } else {
      hide Value, Feed;
      assert (a + b)[..|a + b| - 1] == a + b[..|b| - 1];
      FeedJoin(f, a, b[..|b| - 1]);
    }
  }

  lemma {:induction false} FeedAllOk(f: Fed, s: Bytes)
    requires FedOk(f) && Symbols(s)
    ensures FedOk(FeedAll(f, s))
    decreases |s|
  {
    if s != [] { FeedAllOk(f, s[..|s| - 1]); }
  }

  lemma FeedOne(f: Fed, s: Bytes)
    requires FedOk(f) && Symbols(s) && |s| == 1
    ensures FeedAll(f, s) == Feed(f, Value(s[0]))
  {
    assert s[..0] == [];
  }

  lemma FeedTwo(out: Bytes, s: Bytes)
    requires Symbols(s) && |s| == 2
    ensures FeedAll(Fed(out, 0, 0), s) == Fed(out + [Value(s[0]) * 4 + Value(s[1]) / 16], Value(s[1]) % 16, 4)
  {
    hide Value;
    FeedOne(Fed(out, 0, 0), s[..1]);
    var t := Value(s[0]) * 64 + Value(s[1]);
    assert t / 16 == Value(s[0]) * 4 + Value(s[1]) / 16 && t % 16 == Value(s[1]) % 16;
  }

  lemma FeedThree(out: Bytes, s: Bytes)
    requires Symbols(s) && |s| == 3
    ensures FeedAll(Fed(out, 0, 0), s) ==
              Fed(out + [Value(s[0]) * 4 + Value(s[1]) / 16] + [Value(s[1]) % 16 * 16 + Value(s[2]) / 4], Value(s[2]) % 4, 2)
  {
    hide Value;
    FeedTwo(out, s[..2]);
    var left := Value(s[1]) % 16;
    var t := left * 64 + Value(s[2]);
    assert t / 4 == left * 16 + Value(s[2]) / 4 && t % 4 == Value(s[2]) % 4;
  }

  lemma FedOfFour(out: Bytes, r: int, t: int)
    requires 0 <= r < 64 && 0 <= t < 64
    ensures Feed(Fed(out, r % 4, 2), t) == Fed(out + [r % 4 * 64 + t], 0, 0)
  {
  }

  lemma FeedFour(out: Bytes, s: Bytes)
    requires Symbols(s) && |s| == 4
    ensures FeedAll(Fed(out, 0, 0), s) == Fed(out + Three(Value(s[0]), Value(s[1]), Value(s[2]), Value(s[3])), 0, 0)
  {
    hide Value;
    FeedThree(out, s[..3]);
    var p, q, r, t := Value(s[0]), Value(s[1]), Value(s[2]), Value(s[3]);
    FedOfFour(out + [p * 4 + q / 16] + [q % 16 * 16 + r / 4], r, t);
    assert out + [p * 4 + q / 16] + [q % 16 * 16 + r / 4] + [r % 4 * 64 + t] == out + Three(p, q, r, t);
  }

  lemma {:induction false} FeedDecodes(out: Bytes, s: Bytes)
    requires Symbols(s)
    ensures var f := FeedAll(Fed(out, 0, 0), s);
            && (Decode(s).Some? <==> |s| % 4 != 1 && f.left == 0)
            && (Decode(s).Some? ==> f.out == out + Decode(s).value)
    decreases |s|
  {
    if |s| >= 4 {
      FeedFirst(out, s);
    } else if |s| == 3 {
      hide Value;
      FeedThree(out, s);
    } else if |s| == 2 {
      hide Value;
      FeedTwo(out, s);
    }
  }

  lemma DecodeHead(head: Bytes, tail: Bytes)
    requires |head| == 4 && Symbols(head)
    ensures var d := Decode(tail); var t := Three(Value(head[0]), Value(head[1]), Value(head[2]), Value(head[3]));
            Decode(head + tail) == if d.None? then None else Some(t + d.value)
  {
    hide Value, Three;
    assert (head + tail)[..4] == head && (head + tail)[4..] == tail;
  }

  lemma FeedFirst(out: Bytes, s: Bytes)
    requires Symbols(s) && |s| >= 4
    ensures var f := FeedAll(Fed(out, 0, 0), s);
            && (Decode(s).Some? <==> |s| % 4 != 1 && f.left == 0)
            && (Decode(s).Some? ==> f.out == out + Decode(s).value)
    decreases |s|, 0
  {
    hide Value, FeedAll, Three, Decode;
    var head, tail := s[..4], s[4..];
    var t := Three(Value(head[0]), Value(head[1]), Value(head[2]), Value(head[3]));
    assert s == head + tail;
    FeedFour(out, head);
    FeedJoin(Fed(out, 0, 0), head, tail);
    FeedDecodes(out + t, tail);
    DecodeHead(head, tail);
    if Decode(tail).Some? { assert out + (t + Decode(tail).value) == out + t + Decode(tail).value; }
  }

  lemma {:induction false} BadSymbol(s: Bytes, i: nat)
    requires i < |s| && Value(s[i]) < 0
    ensures Decode(s).None?
    decreases |s|
  {
    hide Value, Three;
    if |s| >= 4 {
      if i < 4 { assert Value(s[..4][i]) < 0; } else { BadSymbol(s[4..], i - 4); }
    }
  }

  // b64_decode's loop over the symbols.
  method DecodeB64(s: Bytes) returns (r: Option<Bytes>)
    ensures r == Decode(s)
  {
    if |s| % 4 == 1 {
      OneOver(s, |s| / 4);
      return None;
    }
    var out: Bytes, acc, bits, i := [], 0, 0, 0;
    assert s[..0] == [];
    hide Value, Decode, Shift;
    while i < |s|
      invariant 0 <= i <= |s| && 0 <= acc && bits in {0, 2, 4, 6} && Symbols(s[..i])
      invariant FeedAll(Fed([], 0, 0), s[..i]) == Fed(out, acc % Pow(bits), bits)
    {
      var v := Value(s[i]);
      if v < 0 {
        BadSymbol(s, i);
        return None;
      }
      ghost var f := Fed(out, acc % Pow(bits), bits);
      ShiftRefines(acc, f, v);
      assert s[..i + 1][..i] == s[..i] && s[..i + 1][i] == s[i];
      acc := ShiftIn(acc, v);
      bits := bits + 6;
      if bits >= 8 {
        bits := bits - 8;
        out := out + [acc / Pow(bits) % 256];
      }
      i := i + 1;
    }
    assert s[..i] == s;
    FeedDecodes([], s);
    if bits > 0 && acc % Pow(bits) != 0 { return None; }
    assert [] + Decode(s).value == Decode(s).value;
    return Some(out);
  }

  method ShiftIn(acc: int, v: int) returns (r: int)
    requires 0 <= v < 64
    ensures r == Shift(acc, v) && 0 <= r < TWO32
  {
    r := (acc * 64 + v) % TWO32;
  }

  lemma {:induction false} OneOver(s: Bytes, n: nat)
    requires |s| == 4 * n + 1
    ensures Decode(s).None?
    decreases n
  {
    hide Symbols, Three, Value;
    if n > 0 { OneOver(s[4..], n - 1); }
  }

  // b64_encode's loop over groups of three bytes.
  method EncodeB64(s: Bytes) returns (out: Bytes)
    ensures out == Encode(s)
  {
    out := [];
    var i := 0;
    assert s[0..] == s;
    hide Four;
    while i + 3 <= |s|
      invariant 0 <= i <= |s| && Encode(s) == out + Encode(s[i..])
    {
      assert s[i..][3..] == s[i + 3..] && s[i..][0] == s[i] && s[i..][1] == s[i + 1] && s[i..][2] == s[i + 2];
      assert out + (Four(s[i], s[i + 1], s[i + 2]) + Encode(s[i + 3..])) == out + Four(s[i], s[i + 1], s[i + 2]) + Encode(s[i + 3..]);
      out := out + Four(s[i], s[i + 1], s[i + 2]);
      i := i + 3;
    }
    var left := |s| - i;
    FourLong(if left > 0 then s[i] else 0, if left > 1 then s[i + 1] else 0, 0);
    if left == 1 {
      out := out + Four(s[i], 0, 0)[..2];
    } else if left == 2 {
      assert s[i..][1] == s[i + 1];
      out := out + Four(s[i], s[i + 1], 0)[..3];
    }
  }
}
