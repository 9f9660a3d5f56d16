/**
 The big-endian, length-prefixed byte formats everything else is built from
 (protocol/protocol.cpp), and a small algebra of codecs over them.

 A writer appends to a buffer and a reader consumes a prefix of what is left, so
 a codec is a pair of functions: `enc` gives the bytes appended, `dec` reads a value off
 the front and returns what remains. `Lawful` is the one property every format needs:
 what is written is read back whatever follows it, and what is accepted is exactly what
 would have been written.
 */
module Wire {
  type byte = x: int | 0 <= x < 256
  type Bytes = seq<byte>

  datatype Option<+T> = None | Some(value: T)

  const TWO32: int := 0x1_0000_0000
  const TWO64: int := 0x1_0000_0000_0000_0000

  // Short enough for a 32-bit length.
  predicate Short(b: Bytes) {
    |b| < TWO32
  }

  predicate Distinct(items: seq<Bytes>) {
    forall i, j :: 0 <= i < j < |items| ==> items[i] != items[j]
  }

  // write_u32: the argument is cast to 32 bits first.
  function U32(v: int): (b: Bytes)
    ensures |b| == 4
  {
    Digits(v % TWO32)
  }

  function Digits(w: int): (b: Bytes)
    requires 0 <= w < TWO32
    ensures |b| == 4
  {
    [w / 256 / 256 / 256, w / 256 / 256 % 256, w / 256 % 256, w % 256]
  }

  function Word(p: int, q: int, r: int, s: int): int {
    ((p * 256 + q) * 256 + r) * 256 + s
  }

  function ReadU32(b: Bytes): Option<(int, Bytes)> {
    if |b| < 4 then None
    else Some((Word(b[0], b[1], b[2], b[3]), b[4..]))
  }

  function U64(v: int): Bytes {
    U32(v / TWO32) + U32(v)
  }

  function ReadU64(b: Bytes): Option<(int, Bytes)> {
    match ReadU32(b)
    case None => None
    case Some((high, r)) =>
      match ReadU32(r)
      case None => None
      case Some((low, rest)) => Some((high * TWO32 + low, rest))
  }

  // write_blob and write_string.
  function Blob(b: Bytes): Bytes {
    U32(|b|) + b
  }

  function ReadBlob(b: Bytes, max: int): Option<(Bytes, Bytes)> {
    match ReadU32(b)
    case None => None
    case Some((n, r)) => if n > max || n > |r| then None else Some((r[..n], r[n..]))
  }

  function Blobs(items: seq<Bytes>): Bytes {
    if items == [] then [] else Blob(items[0]) + Blobs(items[1..])
  }

  // A label is an ASCII literal of the program.
  function Ascii(s: string): (b: Bytes)
    ensures |b| == |s|
    ensures forall i :: 0 <= i < |s| ==> b[i] == s[i] as int % 256
  {
    seq(|s|, i requires 0 <= i < |s| => s[i] as int % 256)
  }

  lemma LastDigit(a: int, s: int)
    requires 0 <= s < 256
    ensures (a * 256 + s) / 256 == a && (a * 256 + s) % 256 == s
  {
  }

  lemma DigitsOf(p: byte, q: byte, r: byte, s: byte)
    ensures var v := Word(p, q, r, s); 0 <= v < TWO32 && Digits(v) == [p, q, r, s]
  {
    var pq := p as int * 256 + q;
    var pqr := pq * 256 + r;
    LastDigit(pqr, s);
    LastDigit(pq, r);
    LastDigit(p, q);
  }

  lemma WordOf(w: int)
    requires 0 <= w < TWO32
    ensures var d := Digits(w); Word(d[0], d[1], d[2], d[3]) == w
  {
    var a := w / 256;
    var b := a / 256;
    assert w == a * 256 + w % 256 && a == b * 256 + a % 256 && b == b / 256 * 256 + b % 256;
  }

  lemma U32Reads(v: int, rest: Bytes)
    ensures ReadU32(U32(v) + rest) == Some((v % TWO32, rest))
  {
    hide Word, Digits;
    WordOf(v % TWO32);
    var b := U32(v) + rest;
    assert b[4..] == rest;
  }

  lemma U32Accepts(b: Bytes)
    requires ReadU32(b).Some?
    ensures 0 <= ReadU32(b).value.0 < TWO32
    ensures b == U32(ReadU32(b).value.0) + ReadU32(b).value.1
  {
    hide Word, Digits;
    DigitsOf(b[0], b[1], b[2], b[3]);
    assert b == [b[0], b[1], b[2], b[3]] + b[4..];
  }

  lemma U64Reads(v: int, rest: Bytes)
    requires 0 <= v < TWO64
    ensures ReadU64(U64(v) + rest) == Some((v, rest))
  {
    hide U32, ReadU32;
    assert U64(v) + rest == U32(v / TWO32) + (U32(v) + rest);
    U32Reads(v / TWO32, U32(v) + rest);
    U32Reads(v, rest);
  }

  lemma LowHalf(v: int)
    ensures U32(v) == U32(v % TWO32)
  {
    hide Digits;
  }

  lemma U64Accepts(b: Bytes)
    requires ReadU64(b).Some?
    ensures 0 <= ReadU64(b).value.0 < TWO64
    ensures b == U64(ReadU64(b).value.0) + ReadU64(b).value.1
  {
    hide U32, ReadU32;
    U32Accepts(b);
    var (high, r) := ReadU32(b).value;
    U32Accepts(r);
    var (low, rest) := ReadU32(r).value;
    var v := high * TWO32 + low;
    assert v / TWO32 == high && v % TWO32 == low;
    LowHalf(v);
    assert b == U32(high) + (U32(low) + rest);
  }

  lemma BlobReads(x: Bytes, max: int, rest: Bytes)
    requires |x| <= max && |x| < TWO32
    ensures ReadBlob(Blob(x) + rest, max) == Some((x, rest))
  {
    hide U32, ReadU32;
    assert Blob(x) + rest == U32(|x|) + (x + rest);
    U32Reads(|x|, x + rest);
  }

  lemma BlobAccepts(b: Bytes, max: int)
    requires ReadBlob(b, max).Some?
    ensures |ReadBlob(b, max).value.0| <= max && |ReadBlob(b, max).value.0| < TWO32
    ensures b == Blob(ReadBlob(b, max).value.0) + ReadBlob(b, max).value.1
  {
    hide U32, ReadU32;
    U32Accepts(b);
    var (n, r) := ReadU32(b).value;
    assert b == U32(n) + (r[..n] + r[n..]);
  }

  // ---- Codecs ----

  datatype Codec<!T> = Codec(ok: T -> bool, enc: T -> Bytes, dec: Bytes -> Option<(T, Bytes)>)

  // Whatever may be written is read back, with the rest of the input untouched.
  ghost predicate Reads<T(!new)>(c: Codec<T>) {
    forall x, rest :: c.ok(x) ==> c.dec(c.enc(x) + rest) == Some((x, rest))
  }

  // Whatever is read is something that may be written, and the bytes consumed are its encoding.
  ghost predicate Accepts<T(!new)>(c: Codec<T>) {
    forall b :: c.dec(b).Some? ==>
      var (x, rest) := c.dec(b).value; c.ok(x) && b == c.enc(x) + rest
  }

  ghost predicate Lawful<T(!new)>(c: Codec<T>) {
    Reads(c) && Accepts(c)
  }

  // A whole message: nothing may follow it.
  function Whole<T>(c: Codec<T>, b: Bytes): Option<T> {
    match c.dec(b)
    case None => None
    case Some((x, rest)) => if rest == [] then Some(x) else None
  }

  // A strict parser inverts its printer on everything the printer accepts...
  lemma WholeReads<T(!new)>(c: Codec<T>, x: T)
    requires Lawful(c) && c.ok(x)
    ensures Whole(c, c.enc(x)) == Some(x)
  {
    assert c.enc(x) + [] == c.enc(x);
    assert c.dec(c.enc(x) + []) == Some((x, []));
  }

  // ...and the printer inverts the parser on everything the parser accepts.
  lemma WholeAccepts<T(!new)>(c: Codec<T>, b: Bytes)
    requires Lawful(c) && Whole(c, b).Some?
    ensures c.ok(Whole(c, b).value) && c.enc(Whole(c, b).value) == b
  {
    var (x, rest) := c.dec(b).value;
    assert b == c.enc(x) + rest && rest == [];
  }

  function U32C(): Codec<int> {
    Codec((v: int) => 0 <= v < TWO32, U32, ReadU32)
  }

  function U64C(): Codec<int> {
    Codec((v: int) => 0 <= v < TWO64, U64, ReadU64)
  }

  function BlobC(max: int): Codec<Bytes> {
    Codec((b: Bytes) => |b| <= max && |b| < TWO32, Blob, b => ReadBlob(b, max))
  }

  // A reader that also checks what it read.
  function Where<T>(c: Codec<T>, p: T -> bool): Codec<T> {
    Codec(x => c.ok(x) && p(x), c.enc,
          b => match c.dec(b)
               case None => None
               case Some((x, rest)) => if p(x) then Some((x, rest)) else None)
  }

  // A blob of one size only.
  function Exact(max: int, size: int): Codec<Bytes> {
    Where(BlobC(max), (b: Bytes) => |b| == size)
  }

  function Then<A, B>(a: Codec<A>, b: Codec<B>): Codec<(A, B)> {
    Codec((x: (A, B)) => a.ok(x.0) && b.ok(x.1), (x: (A, B)) => a.enc(x.0) + b.enc(x.1),
          bytes => match a.dec(bytes)
                   case None => None
                   case Some((x, r)) =>
                     match b.dec(r)
                     case None => None
                     case Some((y, rest)) => Some(((x, y), rest)))
  }

  // The same bytes read as another type.
  function As<A, B>(c: Codec<A>, into: A -> B, back: B -> A): Codec<B> {
    Codec(y => c.ok(back(y)), y => c.enc(back(y)),
          b => match c.dec(b)
               case None => None
               case Some((x, rest)) => Some((into(x), rest)))
  }

  function EncAll<T>(c: Codec<T>, xs: seq<T>): Bytes {
    if xs == [] then [] else c.enc(xs[0]) + EncAll(c, xs[1..])
  }

  function DecAll<T>(c: Codec<T>, n: nat, b: Bytes): Option<(seq<T>, Bytes)> {
    if n == 0 then Some(([], b))
    else
      match c.dec(b)
      case None => None
      case Some((x, r)) =>
        match DecAll(c, n - 1, r)
        case None => None
        case Some((xs, rest)) => Some(([x] + xs, rest))
  }

  // A u32 count within bounds, then that many items.
  function ListC<T>(c: Codec<T>, low: nat, high: nat): Codec<seq<T>> {
    Codec((xs: seq<T>) => low <= |xs| <= high && |xs| < TWO32 && forall i :: 0 <= i < |xs| ==> c.ok(xs[i]),
          (xs: seq<T>) => U32(|xs|) + EncAll(c, xs),
          b => match ReadU32(b)
               case None => None
               case Some((n, r)) => if low <= n <= high then DecAll(c, n, r) else None)
  }

  lemma U32Lawful()
    ensures Lawful(U32C())
  {
    hide U32, ReadU32;
    forall x, rest | U32C().ok(x) ensures U32C().dec(U32C().enc(x) + rest) == Some((x, rest)) { U32Reads(x, rest); }
    forall b | U32C().dec(b).Some?
      ensures var (x, rest) := U32C().dec(b).value; U32C().ok(x) && b == U32C().enc(x) + rest
    { U32Accepts(b); }
  }

  lemma U64Lawful()
    ensures Lawful(U64C())
  {
    hide U64, ReadU64;
    forall x, rest | U64C().ok(x) ensures U64C().dec(U64C().enc(x) + rest) == Some((x, rest)) { U64Reads(x, rest); }
    forall b | U64C().dec(b).Some?
      ensures var (x, rest) := U64C().dec(b).value; U64C().ok(x) && b == U64C().enc(x) + rest
    { U64Accepts(b); }
  }

  lemma BlobLawful(max: int)
    ensures Lawful(BlobC(max))
  {
    hide Blob, ReadBlob;
    var c := BlobC(max);
    forall x, rest | c.ok(x) ensures c.dec(c.enc(x) + rest) == Some((x, rest)) { BlobReads(x, max, rest); }
    forall b | c.dec(b).Some?
      ensures var (x, rest) := c.dec(b).value; c.ok(x) && b == c.enc(x) + rest
    { BlobAccepts(b, max); }
  }

  lemma WhereLawful<T(!new)>(c: Codec<T>, p: T -> bool)
    requires Lawful(c)
    ensures Lawful(Where(c, p))
  {
    var d := Where(c, p);
    forall x, rest | d.ok(x) ensures d.dec(d.enc(x) + rest) == Some((x, rest)) {
      assert c.dec(c.enc(x) + rest) == Some((x, rest));
    }
    forall b | d.dec(b).Some?
      ensures var (x, rest) := d.dec(b).value; d.ok(x) && b == d.enc(x) + rest
    {
      assert c.dec(b).Some?;
    }
  }

  lemma ExactLawful(max: int, size: int)
    ensures Lawful(Exact(max, size))
  {
    BlobLawful(max);
    WhereLawful(BlobC(max), (b: Bytes) => |b| == size);
  }

  lemma ThenOk<A(!new), B(!new)>(a: Codec<A>, b: Codec<B>, x: A, y: B)
    ensures Then(a, b).ok((x, y)) <==> a.ok(x) && b.ok(y)
  {
  }

  lemma ThenDec<A(!new), B(!new)>(a: Codec<A>, b: Codec<B>, bytes: Bytes)
    ensures Then(a, b).dec(bytes) ==
              if a.dec(bytes).None? || b.dec(a.dec(bytes).value.1).None? then None
              else Some(((a.dec(bytes).value.0, b.dec(a.dec(bytes).value.1).value.0), b.dec(a.dec(bytes).value.1).value.1))
  {
  }

  lemma ThenLawful<A(!new), B(!new)>(a: Codec<A>, b: Codec<B>)
    requires Lawful(a) && Lawful(b)
    ensures Lawful(Then(a, b))
  {
    var d := Then(a, b);
    forall x, rest | d.ok(x) ensures d.dec(d.enc(x) + rest) == Some((x, rest)) {
      assert d.enc(x) + rest == a.enc(x.0) + (b.enc(x.1) + rest);
      assert a.dec(a.enc(x.0) + (b.enc(x.1) + rest)) == Some((x.0, b.enc(x.1) + rest));
      assert b.dec(b.enc(x.1) + rest) == Some((x.1, rest));
    }
    forall bytes | d.dec(bytes).Some?
      ensures var (x, rest) := d.dec(bytes).value; d.ok(x) && bytes == d.enc(x) + rest
    {
      var (x, r) := a.dec(bytes).value;
      var (y, rest) := b.dec(r).value;
      assert bytes == a.enc(x) + (b.enc(y) + rest);
      assert d.enc((x, y)) == a.enc(x) + b.enc(y);
    }
  }

  lemma AsLawful<A(!new), B(!new)>(c: Codec<A>, into: A -> B, back: B -> A)
    requires Lawful(c)
    requires forall x :: c.ok(x) ==> back(into(x)) == x
    requires forall y :: into(back(y)) == y
    ensures Lawful(As(c, into, back))
  {
    var d := As(c, into, back);
    forall y, rest | d.ok(y) ensures d.dec(d.enc(y) + rest) == Some((y, rest)) {
      assert c.dec(c.enc(back(y)) + rest) == Some((back(y), rest));
    }
    forall b | d.dec(b).Some?
      ensures var (y, rest) := d.dec(b).value; d.ok(y) && b == d.enc(y) + rest
    {
      var (x, rest) := c.dec(b).value;
      assert c.ok(x) && b == c.enc(x) + rest;
    }
  }

  lemma {:induction false} AllReads<T(!new)>(c: Codec<T>, xs: seq<T>, rest: Bytes)
    requires Lawful(c)
    requires forall i :: 0 <= i < |xs| ==> c.ok(xs[i])
    ensures DecAll(c, |xs|, EncAll(c, xs) + rest) == Some((xs, rest))
  {
    if xs == [] {
      assert EncAll(c, xs) + rest == rest;
    } else {
      var tail := EncAll(c, xs[1..]) + rest;
      assert EncAll(c, xs) + rest == c.enc(xs[0]) + tail;
      assert c.dec(c.enc(xs[0]) + tail) == Some((xs[0], tail));
      AllReads(c, xs[1..], rest);
      assert [xs[0]] + xs[1..] == xs;
    }
  }

  lemma {:induction false} AllAccepts<T(!new)>(c: Codec<T>, n: nat, b: Bytes)
    requires Lawful(c) && DecAll(c, n, b).Some?
    ensures var (xs, rest) := DecAll(c, n, b).value;
            |xs| == n && b == EncAll(c, xs) + rest && forall i :: 0 <= i < n ==> c.ok(xs[i])
  {
    if n > 0 {
      var (x, r) := c.dec(b).value;
      var (xs, rest) := DecAll(c, n - 1, r).value;
      AllAccepts(c, n - 1, r);
      assert ([x] + xs)[1..] == xs;
      assert b == c.enc(x) + (EncAll(c, xs) + rest);
    }
  }

  lemma ListReads<T(!new)>(c: Codec<T>, low: nat, high: nat, xs: seq<T>, rest: Bytes)
    requires Lawful(c) && ListC(c, low, high).ok(xs)
    ensures ListC(c, low, high).dec(ListC(c, low, high).enc(xs) + rest) == Some((xs, rest))
  {
    hide U32, ReadU32;
    AllReads(c, xs, rest);
    CountReads(|xs|, EncAll(c, xs), rest);
  }

  lemma CountReads(n: nat, items: Bytes, rest: Bytes)
    requires n < TWO32
    ensures ReadU32(U32(n) + items + rest) == Some((n, items + rest))
  {
    hide U32, ReadU32;
    assert U32(n) + items + rest == U32(n) + (items + rest);
    U32Reads(n, items + rest);
  }

  lemma ListAccepts<T(!new)>(c: Codec<T>, low: nat, high: nat, b: Bytes)
    requires Lawful(c) && ListC(c, low, high).dec(b).Some?
    ensures var (xs, rest) := ListC(c, low, high).dec(b).value;
            ListC(c, low, high).ok(xs) && b == ListC(c, low, high).enc(xs) + rest
  {
    hide U32, ReadU32;
    U32Accepts(b);
    var (n, r) := ReadU32(b).value;
    AllAccepts(c, n, r);
    var (xs, rest) := DecAll(c, n, r).value;
    assert b == U32(n) + EncAll(c, xs) + rest;
  }

  lemma ListLawful<T(!new)>(c: Codec<T>, low: nat, high: nat)
    requires Lawful(c)
    ensures Lawful(ListC(c, low, high))
  {
    var d := ListC(c, low, high);
    forall xs, rest | d.ok(xs) ensures d.dec(d.enc(xs) + rest) == Some((xs, rest)) {
      ListReads(c, low, high, xs, rest);
    }
    forall b | d.dec(b).Some?
      ensures var (xs, rest) := d.dec(b).value; d.ok(xs) && b == d.enc(xs) + rest
    {
      ListAccepts(c, low, high, b);
    }
  }

  // The same items written one by one as blobs.
  lemma {:induction false} BlobsAreEncAll(items: seq<Bytes>, max: int)
    ensures Blobs(items) == EncAll(BlobC(max), items)
  {
    if items != [] { BlobsAreEncAll(items[1..], max); }
  }
}
