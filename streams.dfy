/** The byte streams the BER-TLV reader and writer work on. ByteReader behaves
    as Go's bytes.Reader: a Read into a buffer copies as many bytes as both the
    buffer and the remaining input allow, and reports an error (io.EOF) exactly
    when no input remains, even for an empty buffer. ByteWriter behaves as a
    bytes.Buffer: every Write appends all of its bytes and never fails. */
module Streams {
  import opened Octets

  class ByteReader {
    const data: seq<byte>
    var pos: nat

    ghost predicate Valid()
      reads this
    {
      pos <= |data|
    }

    /** The input that has not been read yet. */
    ghost function Remaining(): seq<byte>
      reads this
      requires Valid()
    {
      data[pos..]
    }

    constructor (data: seq<byte>)
      ensures Valid() && this.data == data && pos == 0 && Remaining() == data
    {
      this.data := data;
      pos := 0;
    }

    method Read(buf: array<byte>) returns (n: nat, eof: bool)
      requires Valid()
      modifies this, buf
      ensures Valid()
      ensures eof <==> old(pos) == |data|
      ensures n == Min(buf.Length, |data| - old(pos))
      ensures pos == old(pos) + n
      ensures buf[..n] == data[old(pos)..pos]
      ensures buf[n..] == old(buf[n..])
    {
      if pos == |data| {
        return 0, true;
      }
      n := Min(buf.Length, |data| - pos);
      var i := 0;
      while i < n
        modifies buf
        invariant 0 <= i <= n
        invariant buf[..i] == data[pos..pos + i]
        invariant buf[n..] == old(buf[n..])
      {
        buf[i] := data[pos + i];
        i := i + 1;
      }
      pos := pos + n;
      eof := false;
    }
  }

  class ByteWriter {
    var written: seq<byte>

    constructor ()
      ensures written == []
    {
      written := [];
    }

    method Write(p: seq<byte>) returns (n: nat)
      modifies this
      ensures written == old(written) + p && n == |p|
    {
      written := written + p;
      n := |p|;
    }
  }
}
