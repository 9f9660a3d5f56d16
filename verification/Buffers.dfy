/**
 The read and write helpers of protocol/protocol.cpp as they are used: a buffer that grows at its end, and an offset
 that moves through a buffer.
 */
module Buffers {
  import opened Wire

  class Writer {
    var buf: Bytes

    constructor ()
      ensures buf == []
    {
      buf := [];
    }

    method PutU32(v: int)
      modifies this
      ensures buf == old(buf) + U32(v)
    {
      var w := v % TWO32;
      buf := buf + [w / 256 / 256 / 256];
      buf := buf + [w / 256 / 256 % 256];
      buf := buf + [w / 256 % 256];
      buf := buf + [w % 256];
    }

    method PutBlob(b: Bytes)
      modifies this
      ensures buf == old(buf) + Blob(b)
    {
      PutU32(|b|);
      buf := buf + b;
    }

    // Each item as a blob, in order.
    method PutBlobs(items: seq<Bytes>)
      modifies this
      ensures buf == old(buf) + Blobs(items)
    {
      var i := 0;
      assert items[0..] == items;
      while i < |items|
        invariant 0 <= i <= |items| && buf + Blobs(items[i..]) == old(buf) + Blobs(items)
      {
        assert items[i..][1..] == items[i + 1..];
        ghost var was := buf;
        PutBlob(items[i]);
        assert was + (Blob(items[i]) + Blobs(items[i + 1..])) == was + Blob(items[i]) + Blobs(items[i + 1..]);
        i := i + 1;
      }
    }
  }

  class Reader {
    const data: Bytes
    var off: nat

    ghost predicate Valid()
      reads this
    {
      off <= |data|
    }

    // What has not been read yet.
    ghost function Rest(): Bytes
      requires Valid()
      reads this
    {
      data[off..]
    }

    constructor (data: Bytes)
      ensures this.data == data && Valid() && Rest() == data
    {
      this.data, off := data, 0;
    }

    method GetU32() returns (v: Option<int>)
      requires Valid()
      modifies this
      ensures Valid() && ReadU32(old(Rest())) == if v.Some? then Some((v.value, Rest())) else None
    {
      if |data| - off < 4 { return None; }
      v := Some(Word(data[off], data[off + 1], data[off + 2], data[off + 3]));
      off := off + 4;
      assert old(Rest())[4..] == Rest();
    }

    method GetBlob(max: int) returns (b: Option<Bytes>)
      requires Valid()
      modifies this
      ensures Valid() && ReadBlob(old(Rest()), max) == if b.Some? then Some((b.value, Rest())) else None
    {
      hide ReadU32;
      ReadU32Bounds(Rest());
      var n := GetU32();
      if n.None? || n.value > max || n.value > |data| - off { return None; }
      ghost var r := Rest();
      b := Some(data[off..off + n.value]);
      off := off + n.value;
      assert r[..n.value] == b.value && r[n.value..] == Rest();
    }

    method GetBlobs(n: nat, max: int) returns (items: Option<seq<Bytes>>)
      requires Valid()
      modifies this
      ensures Valid() && DecAll(BlobC(max), n, old(Rest())) == if items.Some? then Some((items.value, Rest())) else None
    {
      hide ReadBlob, DecAll, BlobC, Prefixed;
      var i: nat, got: seq<Bytes> := 0, [];
      PrefixNothing(DecAll(BlobC(max), n, Rest()));
      while i < n
        invariant 0 <= i <= n && Valid()
        invariant DecAll(BlobC(max), n, old(Rest())) == Prefixed(got, DecAll(BlobC(max), n - i, Rest()))
      {
        PrefixStep(got, BlobC(max), n - i, Rest());
        BlobDec(max, Rest());
        var b := GetBlob(max);
        if b.None? { return None; }
        got := got + [b.value];
        i := i + 1;
      }
      NoneLeft(got, BlobC(max), Rest());
      return Some(got);
    }
  }

  lemma ReadU32Bounds(b: Bytes)
    ensures ReadU32(b).Some? ==> 0 <= ReadU32(b).value.0 < TWO32
  {
    hide U32, ReadU32;
    if ReadU32(b).Some? { U32Accepts(b); }
  }

  function Prefixed<T>(got: seq<T>, more: Option<(seq<T>, Bytes)>): Option<(seq<T>, Bytes)> {
    if more.None? then None else Some((got + more.value.0, more.value.1))
  }

  lemma BlobDec(max: int, b: Bytes)
    ensures BlobC(max).dec(b) == ReadBlob(b, max)
  {
  }

  lemma PrefixNothing<T>(more: Option<(seq<T>, Bytes)>)
    ensures Prefixed([], more) == more
  {
    if more.Some? { assert [] + more.value.0 == more.value.0; }
  }

  lemma NoneLeft<T>(got: seq<T>, c: Codec<T>, b: Bytes)
    ensures Prefixed(got, DecAll(c, 0, b)) == Some((got, b))
  {
    assert got + [] == got;
  }

  lemma PrefixStep<T>(got: seq<T>, c: Codec<T>, n: nat, b: Bytes)
    requires n > 0
    ensures Prefixed(got, DecAll(c, n, b)) ==
              if c.dec(b).None? then None else Prefixed(got + [c.dec(b).value.0], DecAll(c, n - 1, c.dec(b).value.1))
  {
    if c.dec(b).Some? {
      var (x, r) := c.dec(b).value;
      if DecAll(c, n - 1, r).Some? {
        var xs := DecAll(c, n - 1, r).value.0;
        assert got + ([x] + xs) == got + [x] + xs;
      }
    }
  }
}
