/** The storage of the byte ring: a buffer, two offsets and a fill count. */
module RingCore {

  newtype byte = x: int | 0 <= x < 256

  datatype Ring = Ring(data: seq<byte>, r: nat, w: nat, fill: nat)

  /** Offsets may equal the size, because wrapping tests for "greater than" only. */
  predicate Ok(b: Ring) {
    && 0 < |b.data|
    && b.r <= |b.data| && b.w <= |b.data| && b.fill <= |b.data|
    && (b.w == b.r + b.fill || b.w == b.r + b.fill - |b.data|)
  }

  lemma OffsetsModulo(b: Ring)
    requires Ok(b)
    ensures b.w % |b.data| == (b.r + b.fill) % |b.data|
  {
    if b.w != b.r + b.fill {
      var size := |b.data|;
      var sum := b.r + b.fill;
      assert sum == b.w + size;
      assert (b.w + size) % size == b.w % size by { AddModulo(b.w, size); }
    }
  }

  lemma AddModulo(a: nat, size: nat)
    requires 0 < size
    ensures (a + size) % size == a % size
  {
    var q, m := a / size, a % size;
    assert a + size == (q + 1) * size + m;
    UniqueModulo(a + size, size, q + 1, m);
  }

  lemma UniqueModulo(a: nat, size: nat, q: nat, m: nat)
    requires 0 < size && m < size && a == q * size + m
    ensures a % size == m
  {
    var q', m' := a / size, a % size;
    if q > q' { Grows(q' + 1, q, size); }
    if q < q' { Grows(q + 1, q', size); }
  }

  lemma Grows(q: nat, q': nat, size: nat)
    requires q <= q'
    ensures q * size <= q' * size
  {
  }

  /** The stored bytes, oldest first. */
  function Contents(b: Ring): seq<byte>
    requires Ok(b)
  {
    if b.r + b.fill <= |b.data| then b.data[b.r..b.r + b.fill]
    else b.data[b.r..] + b.data[..b.r + b.fill - |b.data|]
  }

  function Empty(data: seq<byte>): Ring {
    Ring(data, 0, 0, 0)
  }

  /** Overwrites part of the buffer: memcpy(data + at, s, |s|). */
  function Overlay(data: seq<byte>, at: nat, s: seq<byte>): (r: seq<byte>)
    requires at + |s| <= |data|
  {
    data[..at] + s + data[at + |s|..]
  }

  /** Copies out the next `n` bytes, in one or two pieces. */
  function GetChunk(b: Ring, n: nat): (Ring, seq<byte>)
    requires Ok(b) && n <= b.fill
  {
    if b.r + n > |b.data| then
      var len1 := |b.data| - b.r;
      var len2 := n - len1;
      (b.(r := len2, fill := b.fill - n), b.data[b.r..] + b.data[..len2])
    else
      (b.(r := b.r + n, fill := b.fill - n), b.data[b.r..b.r + n])
  }

  /** Copies in `s`, in one or two pieces. */
  function PutChunk(b: Ring, s: seq<byte>): Ring
    requires Ok(b) && b.fill + |s| <= |b.data|
  {
    if b.w + |s| > |b.data| then
      var len1 := |b.data| - b.w;
      var len2 := |s| - len1;
      b.(data := Overlay(Overlay(b.data, b.w, s[..len1]), 0, s[len1..]), w := len2, fill := b.fill + |s|)
    else
      b.(data := Overlay(b.data, b.w, s), w := b.w + |s|, fill := b.fill + |s|)
  }

  /** Reading removes exactly the oldest bytes, in order, also across the wrap-around. */
  lemma GetIsDequeue(b: Ring, n: nat)
    requires Ok(b) && n <= b.fill
    ensures Ok(GetChunk(b, n).0) && |GetChunk(b, n).0.data| == |b.data|
    ensures GetChunk(b, n).1 == Contents(b)[..n]
    ensures Contents(GetChunk(b, n).0) == Contents(b)[n..]
  {
  }

  /** Writing appends exactly the given bytes and disturbs nothing that is stored. */
  lemma PutIsEnqueue(b: Ring, s: seq<byte>)
    requires Ok(b) && b.fill + |s| <= |b.data|
    ensures Ok(PutChunk(b, s)) && |PutChunk(b, s).data| == |b.data|
    ensures Contents(PutChunk(b, s)) == Contents(b) + s
  {
    hide Overlay, Contents;
    var b' := PutChunk(b, s);
    PutData(b, s);
    ContentsAt(b);
    ContentsAt(b');
    forall i | 0 <= i < b.fill + |s| ensures Contents(b')[i] == (Contents(b) + s)[i] {
      assert b'.data[Place(b, i)] == if i < b.fill then b.data[Place(b, i)] else s[i - b.fill];
    }
  }

  /** Where the i-th byte after the read offset is. */
  function Place(b: Ring, i: nat): nat
    requires Ok(b) && i < |b.data|
  {
    if b.r + i < |b.data| then b.r + i else b.r + i - |b.data|
  }

  lemma ContentsAt(b: Ring)
    requires Ok(b)
    ensures |Contents(b)| == b.fill && forall i :: 0 <= i < b.fill ==> Contents(b)[i] == b.data[Place(b, i)]
  {
  }

  lemma OverlayAt(data: seq<byte>, at: nat, s: seq<byte>)
    requires at + |s| <= |data|
    ensures |Overlay(data, at, s)| == |data|
    ensures forall i :: 0 <= i < |data| ==> Overlay(data, at, s)[i] == if at <= i < at + |s| then s[i - at] else data[i]
  {
  }

  /** What a write leaves at a place. */
  function PlacedAt(b: Ring, s: seq<byte>, i: nat): byte
    requires Ok(b) && b.fill + |s| <= |b.data| && i < |b.data|
  {
    if b.w <= i < b.w + |s| then s[i - b.w]
    else if i < b.w + |s| - |b.data| then s[i + |b.data| - b.w]
    else b.data[i]
  }

  lemma PutData(b: Ring, s: seq<byte>)
    requires Ok(b) && b.fill + |s| <= |b.data|
    ensures |PutChunk(b, s).data| == |b.data|
    ensures forall i :: 0 <= i < |b.data| ==> PutChunk(b, s).data[i] == PlacedAt(b, s, i)
  {
    hide Overlay;
    if b.w + |s| > |b.data| {
      var len1 := |b.data| - b.w;
      OverlayAt(b.data, b.w, s[..len1]);
      OverlayAt(Overlay(b.data, b.w, s[..len1]), 0, s[len1..]);
    } else {
      OverlayAt(b.data, b.w, s);
    }
  }
}
