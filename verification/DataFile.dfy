/** The data manager for files: positional reads and writes on a byte sequence,
    with the sticky failure flag of the input stream. */
module DataFile {
  import opened Octets
  import opened PacketBuffer
  import opened Requests

  /** An opened file. `fail` is the failure flag of the input stream: a seek to a
      negative offset or a read that meets the end of the file sets it, nothing
      clears it, and while it is set reads deliver nothing. */
  datatype FileSt = FileSt(req: SrvReq, content: seq<byte>, fail: bool)

  function Min(a: nat, b: nat): (r: nat) {
    if a < b then a else b
  }

  // ---------------------------------------------------------------- slicing

  /** The number of the last block of a file: the one that is short (section 6 of
      RFC 1350), and empty when the block size divides the length. */
  function LastBlock(len: nat, blk: nat): (r: nat)
    requires blk > 0
    ensures r >= 1
  {
    len / blk + 1
  }

  /** The first `n` blocks of a file, as bytes. */
  function Prefix(f: seq<byte>, blk: nat, n: nat): (r: seq<byte>)
    ensures r <= f
  {
    f[..Min(n * blk, |f|)]
  }

  /** Block `n` of a file, counted from 1; empty beyond the end. */
  function Block(f: seq<byte>, blk: nat, n: nat): (r: seq<byte>)
    requires n >= 1
    ensures |r| <= blk
  {
    Scale(n - 1, n, blk);
    assert n * blk == (n - 1) * blk + blk;
    f[Min((n - 1) * blk, |f|)..Min(n * blk, |f|)]
  }

  lemma Scale(a: nat, b: nat, blk: nat)
    requires a <= b
    ensures a * blk <= b * blk
  {
  }

  lemma LastBlockBounds(len: nat, blk: nat)
    requires blk > 0
    ensures (LastBlock(len, blk) - 1) * blk <= len < LastBlock(len, blk) * blk
  {
    var q := len / blk;
    assert len == q * blk + len % blk;
    assert (q + 1) * blk == q * blk + blk;
  }

  /** Block numbers up to the last have their start inside the file, and are full
      exactly when they are not the last. */
  lemma BlockSizes(f: seq<byte>, blk: nat, n: nat)
    requires blk > 0 && 1 <= n <= LastBlock(|f|, blk)
    ensures (n - 1) * blk <= |f|
    ensures n < LastBlock(|f|, blk) ==> n * blk <= |f| && |Block(f, blk, n)| == blk
    ensures n == LastBlock(|f|, blk) ==> n * blk > |f| && |Block(f, blk, n)| == |f| - (n - 1) * blk < blk
    ensures |Block(f, blk, n)| < blk <==> n == LastBlock(|f|, blk)
  {
    var last := LastBlock(|f|, blk);
    LastBlockBounds(|f|, blk);
    Scale(n - 1, last - 1, blk);
    assert n * blk == (n - 1) * blk + blk;
    if n < last {
      Scale(n, last - 1, blk);
    }
  }

  /** One more block extends the prefix. */
  lemma PrefixGrows(f: seq<byte>, blk: nat, n: nat)
    requires n >= 1
    ensures Prefix(f, blk, n) == Prefix(f, blk, n - 1) + Block(f, blk, n)
  {
    Scale(n - 1, n, blk);
  }

  function ConcatBlocks(f: seq<byte>, blk: nat, n: nat): (r: seq<byte>) {
    if n == 0 then [] else ConcatBlocks(f, blk, n - 1) + Block(f, blk, n)
  }

  lemma {:induction false} BlocksArePrefix(f: seq<byte>, blk: nat, n: nat)
    ensures ConcatBlocks(f, blk, n) == Prefix(f, blk, n)
  {
    if n > 0 {
      BlocksArePrefix(f, blk, n - 1);
      PrefixGrows(f, blk, n);
    }
  }

  lemma WholeFile(f: seq<byte>, blk: nat)
    requires blk > 0
    ensures Prefix(f, blk, LastBlock(|f|, blk)) == f
  {
    LastBlockBounds(|f|, blk);
  }

  /** The blocks 1 to the last concatenate to the file, and exactly the last one
      is short. */
  lemma {:induction false} BlocksMakeTheFile(f: seq<byte>, blk: nat)
    requires blk > 0
    ensures ConcatBlocks(f, blk, LastBlock(|f|, blk)) == f
    ensures forall n :: 1 <= n <= LastBlock(|f|, blk) ==>
                          (|Block(f, blk, n)| < blk <==> n == LastBlock(|f|, blk))
  {
    BlocksArePrefix(f, blk, LastBlock(|f|, blk));
    WholeFile(f, blk);
    forall n | 1 <= n <= LastBlock(|f|, blk)
      ensures |Block(f, blk, n)| < blk <==> n == LastBlock(|f|, blk)
    {
      BlockSizes(f, blk, n);
    }
  }

  // ------------------------------------------------------------------ access

  /** A read: the returned size (negative beyond the end), the bytes that reached
      the buffer, and the file afterwards. */
  datatype ReadSt = ReadSt(ret: int, bytes: seq<byte>, file: FileSt)

  /** Reading up to `size` bytes at `pos`, which is negative when the `size_t`
      computation of the position has wrapped. The size returned is worked out
      from the file size, whatever the stream delivers. */
  function ReadAt(file: FileSt, size: nat, pos: int): (r: ReadSt)
    ensures r.ret <= size && |r.bytes| <= size
    ensures r.bytes == [] || |r.bytes| == r.ret
    ensures r.file.req == file.req && r.file.content == file.content
  {
    var left := |file.content| - pos;
    if left <= 0 then ReadSt(left, [], file)
    else
      var n := Min(left, size);
      if file.fail || pos < 0 then ReadSt(n, [], file.(fail := true))
      else ReadSt(n, file.content[pos..pos + n], file.(fail := left < size))
  }

  /** A stream that has not failed delivers exactly the asked block. */
  lemma ReadBlock(file: FileSt, blk: nat, n: nat)
    requires blk > 0 && 1 <= n <= LastBlock(|file.content|, blk) && !file.fail
    ensures ReadAt(file, blk, (n - 1) * blk).bytes == Block(file.content, blk, n)
    ensures ReadAt(file, blk, (n - 1) * blk).ret == |Block(file.content, blk, n)|
    ensures ReadAt(file, blk, (n - 1) * blk).file.fail ==> n == LastBlock(|file.content|, blk)
  {
    BlockSizes(file.content, blk, n);
    assert n * blk == (n - 1) * blk + blk;
  }

  /** Writing `data` at `pos`; a gap before it reads as zeros. */
  function WriteAt(content: seq<byte>, pos: nat, data: seq<byte>): (r: seq<byte>)
    ensures data != [] ==> |r| >= pos + |data| && r[pos..pos + |data|] == data
    ensures forall i :: 0 <= i < |content| && !(pos <= i < pos + |data|) ==> i < |r| && r[i] == content[i]
  {
    if data == [] then content
    else if pos > |content| then content + Zeros(pos - |content|) + data
    else if pos + |data| >= |content| then content[..pos] + data
    else content[..pos] + data + content[pos + |data|..]
  }

  /** Writing block `n` on top of the first `n - 1` blocks, or on top of a prefix
      that already has it, leaves exactly the first blocks. */
  lemma WriteBlock(f: seq<byte>, blk: nat, n: nat, have: nat)
    requires blk > 0 && 1 <= n <= LastBlock(|f|, blk)
    requires have == n - 1 || have == n
    ensures WriteAt(Prefix(f, blk, have), (n - 1) * blk, Block(f, blk, n)) == Prefix(f, blk, n)
  {
    BlockSizes(f, blk, n);
    PrefixGrows(f, blk, n);
    assert |Prefix(f, blk, n - 1)| == (n - 1) * blk;
  }

  lemma NothingSpliced(buf: seq<byte>, from: nat)
    requires from <= |buf|
    ensures Splice(buf, from, []) == buf
  {
  }

  lemma MinBounds(a: nat, b: nat)
    ensures Min(a, b) <= a && Min(a, b) <= b && (Min(a, b) == a || Min(a, b) == b)
  {
  }

  /** `DataMgrFile`, reduced to what reads and writes touch. */
  class DataMgrFile {
    var req: SrvReq
    var content: seq<byte>
    var fail: bool

    ghost function Value(): (r: FileSt)
      reads this
    {
      FileSt(req, content, fail)
    }

    constructor (req: SrvReq, content: seq<byte>)
      ensures Value() == FileSt(req, content, false)
    {
      this.req, this.content, this.fail := req, content, false;
    }

    /** The stream after a successful `init`: a file to be read as it is, a file to
        be written empty. */
    method Open(req: SrvReq, content: seq<byte>)
      modifies this
      ensures Value() == FileSt(req, if req == SrvReq.Read then content else [], false)
    {
      this.req, this.fail := req, false;
      this.content := if req == SrvReq.Read then content else [];
    }

    /** `read` into `buf` at `from`; `None` is the exception for a file that was
        not opened for reading. Bytes the stream does not deliver stay stale. */
    method Read(buf: SmBufEx, from: nat, size: nat, pos: int) returns (ret: Option<int>)
      requires buf.Valid() && from + size <= buf.data.Length
      modifies this`fail, buf.data
      ensures ret.Some? <==> req == SrvReq.Read
      ensures ret.Some? ==>
                var r := ReadAt(old(Value()), size, pos);
                && ret.value == r.ret && Value() == r.file
                && buf.data[..] == Splice(old(buf.data[..]), from, r.bytes)
      ensures ret.None? ==> Value() == old(Value()) && buf.data[..] == old(buf.data[..])
    {
      hide Splice, Min;
      if req != SrvReq.Read {
        return None;
      }
      NothingSpliced(buf.data[..], from);
      if pos < 0 {
        fail := true;
      }
      var left := |content| - pos;
      if left > 0 {
        var n := Min(left, size);
        MinBounds(left, size);
        if !fail {
          buf.Store(from, content[pos..pos + n]);
          if left < size {
            fail := true;
          }
        }
        left := n;
      }
      return Some(left);
    }

    /** `write` at `pos`; `None` is an exception: the file was not opened for
        writing, or the stream cannot seek to a negative position. */
    method Write(data: seq<byte>, pos: int) returns (ret: Option<nat>)
      modifies this`content
      ensures ret.Some? <==> req == SrvReq.Write && (data == [] || pos >= 0)
      ensures ret.Some? ==> ret.value == |data|
      ensures content == if ret.Some? && data != [] then WriteAt(old(content), pos, data) else old(content)
    {
      if req != SrvReq.Write {
        return None;
      }
      if |data| > 0 {
        if pos < 0 {
          return None;
        }
        content := WriteAt(content, pos, data);
      }
      return Some(|data|);
    }
  }
}
