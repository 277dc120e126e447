/** The checksum reader: it must hash all of a stream but the last few bytes, which hold the checksum,
    without knowing where the stream ends. */
module Crc {
  type byte = int

  /** Copies n elements between arrays. */
  method Copy(dst: array<byte>, at: nat, src: array<byte>, from: nat, n: nat)
    requires at + n <= dst.Length && from + n <= src.Length && dst != src
    modifies dst
    ensures dst[..at] == old(dst[..at]) && dst[at..at + n] == src[from..from + n] && dst[at + n..] == old(dst[at + n..])
  {
    for i := 0 to n
      invariant forall k :: 0 <= k < dst.Length ==>
        dst[k] == if at <= k < at + i then src[from + k - at] else old(dst[k])
    {
      dst[at + i] := src[from + i];
    }
  }

  /** A window on a backing array, as the reader's buffer is: it can be cut and extended in place, and
      appending moves it to a new array when the old one is full. */
  class CRC32Reader {
    var hashed: seq<byte>      // everything written to the hasher so far
    var data: array<byte>
    var start: nat
    var len: nat
    const checksumLength: nat
    ghost var all: seq<byte>   // everything read so far

    ghost predicate Valid()
      reads this, data
    {
      && start + len <= data.Length && start + checksumLength <= data.Length
      && hashed + data[start..start + len] == all
      && len == if |all| < checksumLength then |all| else checksumLength
    }

    constructor (checksumLength: nat)
      ensures Valid() && all == [] && this.checksumLength == checksumLength && fresh(data)
    {
      this.checksumLength := checksumLength;
      hashed, start, len, all := [], 0, 0, [];
      data := new byte[checksumLength];
    }

    /** Appends to the window, in place while the array has room. */
    method Append(p: array<byte>, n: nat)
      requires start + len <= data.Length && n <= p.Length && p != data
      modifies this`data, this`start, this`len, data
      ensures start + len <= data.Length && len == old(len) + n
      ensures data[start..start + len] == old(data[start..start + len]) + p[..n]
      ensures fresh(data) || (data == old(data) && start == old(start))
      ensures data.Length - start >= old(data.Length - start)
    {
      ghost var window := data[start..start + len];
      if start + len + n <= data.Length {
        Copy(data, start + len, p, 0, n);
        assert data[start..start + len] == data[..start + len][start..];
        assert data[start..start + len + n] == data[start..start + len] + data[start + len..start + len + n];
      } else {
        data := Grow(p, n);
        start := 0;
      }
      len := len + n;
    }

    /** A larger array that begins with the window and n more bytes. */
    method Grow(p: array<byte>, n: nat) returns (d: array<byte>)
      requires start + len <= data.Length && n <= p.Length
      ensures fresh(d) && d.Length == (data.Length - start) + len + n
      ensures d[..len + n] == data[start..start + len] + p[..n]
    {
      d := new byte[(data.Length - start) + len + n];
      Copy(d, 0, data, start, len);
      Copy(d, len, p, 0, n);
      assert d[..len + n] == d[..len] + d[len..len + n];
    }

    /** One read of n bytes into p.  Whatever the sizes of the reads, the bytes hashed and the bytes
        held back make up the stream, and as many as a checksum has are held back. */
    method Read(p: array<byte>, n: nat)
      requires Valid() && n <= p.Length && p != data
      modifies this`hashed, this`data, this`start, this`len, this`all, data
      ensures Valid() && all == old(all) + p[..n] && (fresh(data) || data == old(data))
    {
      ghost var next := all + p[..n];
      assert |p[..n]| == n;
      if n >= checksumLength {
        Replace(p, n, next);
      } else {
        Extend(p, n, next);
      }
      all := next;
    }

    /** A shorter read: part of what was held back may belong to the checksum. */
    method Extend(p: array<byte>, n: nat, ghost next: seq<byte>)
      requires start + len <= data.Length && start + checksumLength <= data.Length && n <= p.Length
      requires n < checksumLength && p != data
      requires next == hashed + data[start..start + len] + p[..n]
      modifies this`hashed, this`data, this`start, this`len, data
      ensures start + len <= data.Length && start + checksumLength <= data.Length
      ensures hashed + data[start..start + len] == next
      ensures len == (if old(len) + n > checksumLength then checksumLength else old(len) + n)
      ensures (fresh(data) || data == old(data))
    {
      ghost var window := data[start..start + len];
      Append(p, n);
      assert hashed + (window + p[..n]) == next;
      if len > checksumLength {
        Cut(next);
      }
    }

    /** A read at least as long as a checksum: nothing held back before can belong to it. */
    method Replace(p: array<byte>, n: nat, ghost next: seq<byte>)
      requires start + len <= data.Length && start + checksumLength <= data.Length
      requires checksumLength <= n <= p.Length && p != data
      requires next == hashed + data[start..start + len] + p[..n]
      modifies this`hashed, this`len, data
      ensures len == checksumLength && hashed + data[start..start + len] == next
    {
      var from := n - checksumLength;
      hashed := hashed + data[start..start + len];
      hashed := hashed + p[..from];
      len := checksumLength;
      Copy(data, start, p, from, checksumLength);
      assert p[..n] == p[..from] + p[from..n];
    }

    /** Hashes what is certainly not part of the checksum. */
    method Cut(ghost next: seq<byte>)
      requires start + len <= data.Length && len > checksumLength && hashed + data[start..start + len] == next
      modifies this`hashed, this`start, this`len
      ensures start + len <= data.Length && len == checksumLength && hashed + data[start..start + len] == next
    {
      var from := len - checksumLength;
      ghost var window := data[start..start + len];
      assert window == data[start..start + from] + data[start + from..start + len];
      hashed := hashed + data[start..start + from];
      start, len := start + from, checksumLength;
    }

    /** The checksum is taken over all bytes but the last ones. */
    method Sum() returns (bytes: seq<byte>)
      requires Valid()
      ensures bytes == if |all| < checksumLength then [] else all[..|all| - checksumLength]
    {
      bytes := hashed;
      assert all[..|hashed|] == hashed;
    }
  }

  /** However a stream is cut into reads, the hashed bytes are the same. */
  method Chunked(chunks: seq<seq<byte>>, checksumLength: nat) returns (bytes: seq<byte>)
    ensures bytes == Hashed(Flat(chunks), checksumLength)
  {
    var r := new CRC32Reader(checksumLength);
    for i := 0 to |chunks|
      invariant r.Valid() && fresh(r) && fresh(r.data)
      invariant r.checksumLength == checksumLength && r.all == Flat(chunks[..i])
    {
      var c := chunks[i];
      var p := new byte[|c|](j requires 0 <= j < |c| => c[j]);
      assert p[..|c|] == c;
      r.Read(p, |c|);
      assert chunks[..i + 1][..i] == chunks[..i];
    }
    assert chunks[..|chunks|] == chunks;
    bytes := r.Sum();
  }

  function Hashed(all: seq<byte>, checksumLength: nat): (h: seq<byte>)
  {
    if |all| < checksumLength then [] else all[..|all| - checksumLength]
  }

  function Flat(chunks: seq<seq<byte>>): (all: seq<byte>)
  {
    if chunks == [] then [] else Flat(chunks[..|chunks| - 1]) + chunks[|chunks| - 1]
  }
}
