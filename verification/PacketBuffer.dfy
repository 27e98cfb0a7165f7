/** The packet buffer: `SmBuf` (positional access to a byte vector) and `SmBufEx`
    (an append-only encoder on top of it). */
module PacketBuffer {
  import opened Octets

  /** The size of the buffers of server and sessions, and of a UDP payload at most. */
  const BUF_SIZE: nat := 0xFFFF

  datatype Option<+T> = None | Some(value: T)

  /** The sizes of the C++ integer types the buffer can hold. */
  datatype Width = W1 | W2 | W4 | W8 {
    function Size(): (r: nat)
      ensures r == 1 || r == 2 || r == 4 || r == 8
    {
      match this
      case W1 => 1
      case W2 => 2
      case W4 => 4
      case W8 => 8
    }
  }

  // ------------------------------------------------------- positional access

  /** The `size_t` sum: it wraps around at 2^64. */
  function SizeSum(a: nat, b: nat): (r: nat)
    requires a < SIZE_MOD && b < SIZE_MOD
  {
    if a + b < SIZE_MOD then a + b else a + b - SIZE_MOD
  }

  /** `is_valid`: the sum can wrap around and then passes for a small one. */
  predicate IsValid(size: nat, offset: nat, len: nat)
    requires size < MAX_SIZE && len < SIZE_MOD
  {
    offset < size && SizeSum(offset, len) <= size
  }

  function PutBe(buf: seq<byte>, offset: nat, w: nat, v: int): (r: seq<byte>)
    requires offset + w <= |buf|
  {
    Splice(buf, offset, BeBytes(ToUnsigned(v, w), w))
  }

  function PutLe(buf: seq<byte>, offset: nat, w: nat, v: int): (r: seq<byte>)
    requires offset + w <= |buf|
  {
    Splice(buf, offset, LeBytes(ToUnsigned(v, w), w))
  }

  function ReadBe(buf: seq<byte>, offset: nat, w: nat, signed: bool): (r: int)
    requires offset + w <= |buf|
  {
    FromUnsigned(BeNat(buf[offset..offset + w]), w, signed)
  }

  function ReadLe(buf: seq<byte>, offset: nat, w: nat, signed: bool): (r: int)
    requires offset + w <= |buf|
  {
    FromUnsigned(LeNat(buf[offset..offset + w]), w, signed)
  }

  /** What `get_string` yields: a string, a thrown `invalid_argument`, or an
      iterator range that runs backwards (undefined in C++). */
  datatype Fetched = Text(s: seq<byte>) | BadOffset | BadRange

  /** `get_string`: a length of zero means "up to the end of the buffer". */
  function GetString(buf: seq<byte>, offset: nat, len: nat): (r: Fetched)
    requires |buf| < MAX_SIZE && len < SIZE_MOD
    ensures r.Text? ==> offset + |r.s| <= |buf|
  {
    if !IsValid(|buf|, offset, len) then BadOffset
    else if len == 0 then Text(UpToNul(buf[offset..]))
    else
      var end := SizeSum(offset, len);
      if end < offset then BadRange else Text(UpToNul(buf[offset..end]))
  }

  /** What `set_string` writes: with a zero end, the text up to its first NUL
      followed by a NUL; without, the whole text. */
  function StringBytes(s: seq<byte>, zeroEnd: bool): (r: seq<byte>)
    ensures |r| <= |s| + 1
  {
    if zeroEnd then UpToNul(s) + [0] else s
  }

  /** Setting and getting an integer are inverse in both byte orders, for every
      buffer, offset, width and value, and touch no other byte. */
  lemma IntegerInBuffer(buf: seq<byte>, offset: nat, width: Width, v: int, signed: bool)
    requires offset + width.Size() <= |buf|
    requires Representable(v, width.Size(), signed)
    ensures ReadBe(PutBe(buf, offset, width.Size(), v), offset, width.Size(), signed) == v
    ensures ReadLe(PutLe(buf, offset, width.Size(), v), offset, width.Size(), signed) == v
    ensures forall i :: 0 <= i < |buf| && !(offset <= i < offset + width.Size()) ==>
                          && PutBe(buf, offset, width.Size(), v)[i] == buf[i]
                          && PutLe(buf, offset, width.Size(), v)[i] == buf[i]
  {
    hide Pow256, BeBytes, LeBytes, BeNat, LeNat, ToUnsigned, FromUnsigned, Representable, Splice;
    var w := width.Size();
    IntegerRoundTrip(v, w, signed);
    forall i | 0 <= i < |buf| && !(offset <= i < offset + w)
      ensures PutBe(buf, offset, w, v)[i] == buf[i] && PutLe(buf, offset, w, v)[i] == buf[i]
    {
      SpliceOutside(buf, offset, BeBytes(ToUnsigned(v, w), w), i);
      SpliceOutside(buf, offset, LeBytes(ToUnsigned(v, w), w), i);
    }
  }

  lemma SpliceOutside(buf: seq<byte>, at: nat, s: seq<byte>, i: nat)
    requires at + |s| <= |buf| && i < |buf| && !(at <= i < at + |s|)
    ensures Splice(buf, at, s)[i] == buf[i]
  {
  }

  /** Big-endian is little-endian of the same bytes in reverse order. */
  lemma EndiannessIsReversal(buf: seq<byte>, offset: nat, w: nat, signed: bool)
    requires offset + w <= |buf|
    ensures ReadBe(buf, offset, w, signed)
            == ReadLe(Splice(buf, offset, Reversed(buf[offset..offset + w])), offset, w, signed)
  {
    BeIsReversedLe(buf[offset..offset + w]);
  }

  /** Inside the buffer, `get_string` is the text of that window. */
  lemma GetStringInside(buf: seq<byte>, offset: nat, len: nat)
    requires |buf| < MAX_SIZE && offset < |buf| && offset + len <= |buf|
    ensures GetString(buf, offset, len)
            == Text(UpToNul(buf[offset..if len == 0 then |buf| else offset + len]))
  {
    assert buf[offset..] == buf[offset..|buf|];
  }

  lemma TerminatedPrefix(b: seq<byte>, offset: nat, end: nat, text: seq<byte>)
    requires offset + |text| < end <= |b| && NulFree(text)
    requires b[offset..offset + |text| + 1] == text + [0]
    ensures UpToNul(b[offset..end]) == text
  {
    var window := b[offset..end];
    assert window[..|text| + 1] == text + [0];
    assert window[..|text|] == window[..|text| + 1][..|text|];
    assert window[|text|] == window[..|text| + 1][|text|];
    UpToNulUnique(window, text);
  }

  /** A string stored with a zero end reads back as its text up to the first
      NUL, whether or not a (long enough) maximal length is given. */
  lemma {:induction false} StringInBuffer(buf: seq<byte>, offset: nat, s: seq<byte>, len: nat)
    requires |buf| < MAX_SIZE
    requires offset + |StringBytes(s, true)| <= |buf|
    requires len == 0 || |StringBytes(s, true)| <= len <= |buf| - offset
    ensures GetString(Splice(buf, offset, StringBytes(s, true)), offset, len) == Text(UpToNul(s))
  {
    var text := UpToNul(s);
    var b := Splice(buf, offset, text + [0]);
    GetStringInside(b, offset, len);
    TerminatedPrefix(b, offset, if len == 0 then |b| else offset + len, text);
  }

  /** The text up to the first NUL, if that is where `i` is. */
  lemma FoundText(buf: seq<byte>, offset: nat, len: nat, end: nat, i: nat)
    requires |buf| < MAX_SIZE && len < SIZE_MOD && IsValid(|buf|, offset, len)
    requires offset <= i <= end <= |buf| && end == (if len == 0 then |buf| else SizeSum(offset, len))
    requires forall k :: offset <= k < i ==> buf[k] != 0
    requires i == end || buf[i] == 0
    ensures GetString(buf, offset, len) == Text(buf[offset..i]) && NulFree(buf[offset..i])
  {
    hide UpToNul;
    assert buf[offset..] == buf[offset..|buf|];
    var window := buf[offset..end];
    assert window[..i - offset] == buf[offset..i];
    assert i < end ==> window[i - offset] == buf[i];
    UpToNulUnique(window, buf[offset..i]);
  }

  // --------------------------------------------------------- the push encoder

  datatype Item = Number(width: Width, value: int) | Str(s: seq<byte>)

  /** An item made ready for the buffer: the room `push_item` asks for and the
      bytes it then writes. The two differ for texts: the room does not count the
      closing NUL, and the bytes stop at the first NUL inside the text. */
  datatype Piece = Piece(room: nat, bytes: seq<byte>)

  function PieceOf(item: Item, bigEndian: bool, zeroEnd: bool): (r: Piece) {
    match item
    case Number(w, v) =>
      Piece(w.Size(), if bigEndian then BeBytes(ToUnsigned(v, w.Size()), w.Size())
                      else LeBytes(ToUnsigned(v, w.Size()), w.Size()))
    case Str(s) => Piece(|s|, StringBytes(s, zeroEnd))
  }

  function PiecesOf(items: seq<Item>, bigEndian: bool, zeroEnd: bool): (r: seq<Piece>)
    ensures |r| == |items|
  {
    seq(|items|, i requires 0 <= i < |items| => PieceOf(items[i], bigEndian, zeroEnd))
  }

  /** What happens to one pushed item: written, refused (`push_item` returns
      false), or an exception out of the offset check. */
  datatype Verdict = Pushed | Refused | Thrown

  function Judge(size: nat, used: nat, p: Piece): (r: Verdict)
    requires used <= size < MAX_SIZE
  {
    if used + p.room > size then Refused
    else if used < size && used + |p.bytes| <= size then Pushed
    else Thrown
  }

  /** The outcome of a `push_data` call: the content afterwards, the returned
      flag, and whether it ended in an exception instead. */
  datatype Batch = Batch(content: seq<byte>, ok: bool, thrown: bool)

  function PushAll(size: nat, content: seq<byte>, pieces: seq<Piece>): (r: Batch)
    requires |content| <= size < MAX_SIZE
    ensures |r.content| <= size
    decreases |pieces|
  {
    if pieces == [] then Batch(content, true, false)
    else
      match Judge(size, |content|, pieces[0])
      case Pushed => PushAll(size, content + pieces[0].bytes, pieces[1..])
      case Refused => PushAll(size, content, pieces[1..]).(ok := false)
      case Thrown => Batch(content, false, true)
  }

  /** The pieces of a history that were written, in order. */
  function Accepted(size: nat, used: nat, pieces: seq<Piece>): (r: seq<Piece>)
    requires used <= size < MAX_SIZE
    ensures |r| <= |pieces|
    decreases |pieces|
  {
    if pieces == [] then []
    else
      match Judge(size, used, pieces[0])
      case Pushed => [pieces[0]] + Accepted(size, used + |pieces[0].bytes|, pieces[1..])
      case Refused => Accepted(size, used, pieces[1..])
      case Thrown => []
  }

  function Concat(pieces: seq<Piece>): (r: seq<byte>) {
    if pieces == [] then [] else pieces[0].bytes + Concat(pieces[1..])
  }

  /** The encoder is append-only over any history of pushes: earlier bytes stay,
      the new bytes are exactly the encodings of the items that were accepted,
      and success is reported exactly when every item was accepted. */
  lemma {:induction false} AppendOnly(size: nat, content: seq<byte>, pieces: seq<Piece>)
    requires |content| <= size < MAX_SIZE
    ensures var r := PushAll(size, content, pieces);
            var a := Accepted(size, |content|, pieces);
            && content <= r.content
            && r.content == content + Concat(a)
            && (r.ok <==> a == pieces)
            && (r.ok ==> !r.thrown)
    decreases |pieces|
  {
    if pieces != [] {
      match Judge(size, |content|, pieces[0])
      case Pushed =>
        var e := pieces[0].bytes;
        AppendOnly(size, content + e, pieces[1..]);
        var a := Accepted(size, |content + e|, pieces[1..]);
        assert ([pieces[0]] + a)[1..] == a;
        assert content + e + Concat(a) == content + (e + Concat(a));
        assert pieces == [pieces[0]] + pieces[1..];
      case Refused =>
        AppendOnly(size, content, pieces[1..]);
      case Thrown =>
    }
  }

  /** A number, or a NUL-free text with its zero end: the bytes fill at least the
      room that was asked for, and there is at least one. */
  predicate Regular(p: Piece) {
    |p.bytes| > 0 && p.room <= |p.bytes|
  }

  lemma RegularPiece(item: Item, bigEndian: bool)
    requires item.Str? ==> NulFree(item.s)
    ensures Regular(PieceOf(item, bigEndian, true))
    ensures item.Str? ==> PieceOf(item, bigEndian, true).bytes == item.s + [0]
  {
    if item.Str? {
      UpToNulUnique(item.s, item.s);
    }
  }

  lemma {:induction false} FittingIsAccepted(size: nat, used: nat, pieces: seq<Piece>)
    requires used <= size < MAX_SIZE
    requires forall i :: 0 <= i < |pieces| ==> Regular(pieces[i])
    requires used + |Concat(pieces)| <= size
    ensures Accepted(size, used, pieces) == pieces
    decreases |pieces|
  {
    if pieces != [] {
      assert Regular(pieces[0]);
      FittingIsAccepted(size, used + |pieces[0].bytes|, pieces[1..]);
    }
  }

  /** Pieces that are written one after the other, each with the room it asks for. */
  ghost predicate Roomy(size: nat, used: nat, pieces: seq<Piece>)
    requires used <= size < MAX_SIZE
    decreases |pieces|
  {
    pieces == [] ||
    (Judge(size, used, pieces[0]) == Pushed && Roomy(size, used + |pieces[0].bytes|, pieces[1..]))
  }

  lemma {:induction false} RoomyIsAccepted(size: nat, used: nat, pieces: seq<Piece>)
    requires used <= size < MAX_SIZE && Roomy(size, used, pieces)
    ensures Accepted(size, used, pieces) == pieces
    decreases |pieces|
  {
    if pieces != [] {
      RoomyIsAccepted(size, used + |pieces[0].bytes|, pieces[1..]);
    }
  }

  /** For numbers and zero-ended NUL-free texts a push succeeds exactly when
      everything fits, and the content then grows by all the encodings. */
  lemma {:induction false} PushFits(size: nat, content: seq<byte>, pieces: seq<Piece>)
    requires |content| <= size < MAX_SIZE
    requires forall i :: 0 <= i < |pieces| ==> Regular(pieces[i])
    ensures PushAll(size, content, pieces).ok <==> |content| + |Concat(pieces)| <= size
    ensures PushAll(size, content, pieces).ok ==>
              PushAll(size, content, pieces) == Batch(content + Concat(pieces), true, false)
  {
    AppendOnly(size, content, pieces);
    if |content| + |Concat(pieces)| <= size {
      FittingIsAccepted(size, |content|, pieces);
    }
  }

  /** `SmBuf` and `SmBufEx`: a fixed-size vector of bytes, the number of bytes
      pushed so far, and the two encoding flags. */
  class SmBufEx {
    var data: array<byte>
    var dataSize: nat
    var bigEndian: bool
    var zeroEnd: bool

    ghost predicate Valid()
      reads this
    {
      dataSize <= data.Length < MAX_SIZE
    }

    /** The bytes pushed so far. */
    ghost function Contents(): (r: seq<byte>)
      requires Valid()
      reads this, data
    {
      data[..dataSize]
    }

    constructor (size: nat)
      requires size < MAX_SIZE
      ensures Valid() && fresh(data)
      ensures data[..] == Zeros(size) && dataSize == 0 && bigEndian && zeroEnd
    {
      data := new byte[size](_ => 0);
      dataSize := 0;
      bigEndian, zeroEnd := true, true;
      new;
      assert data[..] == Zeros(size);
    }

    method Store(offset: nat, bytes: seq<byte>)
      requires offset + |bytes| <= data.Length
      modifies data
      ensures data[..] == Splice(old(data[..]), offset, bytes)
    {
      forall i | 0 <= i < |bytes| {
        data[offset + i] := bytes[i];
      }
      var was := old(data[..]);
      assert data[..] == was[..offset] + bytes + was[offset + |bytes|..];
    }

    method SetBe(offset: nat, width: Width, value: int) returns (ok: bool)
      requires Valid()
      modifies data
      ensures ok <==> IsValid(data.Length, offset, width.Size())
      ensures ok ==> offset + width.Size() <= data.Length
                     && data[..] == PutBe(old(data[..]), offset, width.Size(), value)
      ensures !ok ==> data[..] == old(data[..])
    {
      ok := IsValid(data.Length, offset, width.Size());
      if ok {
        Store(offset, BeBytes(ToUnsigned(value, width.Size()), width.Size()));
      }
    }

    method SetLe(offset: nat, width: Width, value: int) returns (ok: bool)
      requires Valid()
      modifies data
      ensures ok <==> IsValid(data.Length, offset, width.Size())
      ensures ok ==> offset + width.Size() <= data.Length
                     && data[..] == PutLe(old(data[..]), offset, width.Size(), value)
      ensures !ok ==> data[..] == old(data[..])
    {
      ok := IsValid(data.Length, offset, width.Size());
      if ok {
        Store(offset, LeBytes(ToUnsigned(value, width.Size()), width.Size()));
      }
    }

    /** `get_be`: the value two's complement or unsigned weights give the bytes at the
        offset; `None` stands for the exception. */
    method GetBe(offset: nat, width: Width, signed: bool) returns (r: Option<int>)
      requires Valid()
      ensures r.Some? <==> IsValid(data.Length, offset, width.Size())
      ensures r.Some? ==> offset + width.Size() <= data.Length
                          && r.value == ReadBe(data[..], offset, width.Size(), signed)
    {
      if !IsValid(data.Length, offset, width.Size()) {
        return None;
      }
      var v, k := 0, 0;
      while k < width.Size()
        invariant 0 <= k <= width.Size()
        invariant v == BeNat(data[offset..offset + k])
      {
        assert data[offset..offset + k + 1][..k] == data[offset..offset + k];
        v := 256 * v + data[offset + k] as nat;
        k := k + 1;
      }
      assert data[..][offset..offset + k] == data[offset..offset + k];
      return Some(FromUnsigned(v, width.Size(), signed));
    }

    /** `get_le` */
    method GetLe(offset: nat, width: Width, signed: bool) returns (r: Option<int>)
      requires Valid()
      ensures r.Some? <==> IsValid(data.Length, offset, width.Size())
      ensures r.Some? ==> offset + width.Size() <= data.Length
                          && r.value == ReadLe(data[..], offset, width.Size(), signed)
    {
      if !IsValid(data.Length, offset, width.Size()) {
        return None;
      }
      var end := offset + width.Size();
      var v, k := 0, end;
      while k > offset
        invariant offset <= k <= end
        invariant v == LeNat(data[k..end])
      {
        k := k - 1;
        assert data[k..end][1..] == data[k + 1..end];
        v := data[k] as nat + 256 * v;
      }
      assert data[..][offset..end] == data[offset..end];
      return Some(FromUnsigned(v, width.Size(), signed));
    }

    /** `get_string`: looks for the first NUL of the window. */
    method FetchString(offset: nat, len: nat) returns (r: Fetched)
      requires Valid() && len < SIZE_MOD
      ensures r == GetString(data[..], offset, len)
      ensures r.Text? ==> NulFree(r.s) && offset + |r.s| <= data.Length && data[offset..offset + |r.s|] == r.s
    {
      if !IsValid(data.Length, offset, len) {
        return BadOffset;
      }
      var end := if len == 0 then data.Length else SizeSum(offset, len);
      if end < offset {
        return BadRange;
      }
      var i := offset;
      while i < end && data[i] != 0
        invariant offset <= i <= end
        invariant forall k :: offset <= k < i ==> data[k] != 0
      {
        i := i + 1;
      }
      FoundText(data[..], offset, len, end, i);
      assert data[..][offset..i] == data[offset..i];
      return Text(data[offset..i]);
    }

    /** `set_string`: the number of bytes written, or `None` for a refused offset
        (an exception), in which case nothing is written. */
    method SetString(offset: nat, s: seq<byte>, zero: bool) returns (r: Option<nat>)
      requires Valid() && |s| < MAX_SIZE - 1
      modifies data
      ensures r.Some? <==> IsValid(data.Length, offset, |StringBytes(s, zero)|)
      ensures r.Some? ==> r.value == |StringBytes(s, zero)|
                          && offset + r.value <= data.Length
                          && data[..] == Splice(old(data[..]), offset, StringBytes(s, zero))
      ensures r.None? ==> data[..] == old(data[..])
    {
      var text := StringBytes(s, zero);
      if IsValid(data.Length, offset, |text|) {
        Store(offset, text);
        r := Some(|text|);
      } else {
        r := None;
      }
    }

    /** `eqv_string` recognises exactly what `set_string` writes. */
    method EqvString(offset: nat, s: seq<byte>, zero: bool) returns (r: bool)
      requires Valid() && |s| < MAX_SIZE - 1
      ensures r <==> offset < data.Length
                     && offset + |s| + (if zero then 1 else 0) <= data.Length
                     && Splice(data[..], offset, if zero then s + [0] else s) == data[..]
    {
      var tail := if zero then 1 else 0;
      r := IsValid(data.Length, offset, |s| + tail);
      if r {
        ghost var text := if zero then s + [0] else s;
        r := data[offset..offset + |s|] == s && (zero ==> data[offset + |s|] == 0);
        assert r <==> data[offset..offset + |text|] == text by {
          if data[offset..offset + |text|] == text {
            assert data[offset..offset + |s|] == data[offset..offset + |text|][..|s|];
          }
        }
        assert data[..] == data[..][..offset] + data[offset..offset + |text|] + data[..][offset + |text|..];
        assert Splice(data[..], offset, text)[offset..offset + |text|] == text;
      }
    }

    method Clear()
      requires Valid()
      modifies this`dataSize
      ensures Valid() && Contents() == []
    {
      dataSize := 0;
    }

    /** `data_size_reset`: false stands for the exception. */
    method DataSizeReset(newSize: nat) returns (ok: bool)
      requires Valid()
      modifies this`dataSize
      ensures Valid()
      ensures ok <==> newSize <= data.Length
      ensures dataSize == if ok then newSize else old(dataSize)
    {
      ok := newSize <= data.Length;
      if ok {
        dataSize := newSize;
      }
    }

    method PushItem(item: Item) returns (v: Verdict)
      requires Valid() && (item.Str? ==> |item.s| < MAX_SIZE - 1)
      modifies this`dataSize, data
      ensures Valid()
      ensures var p := PieceOf(item, bigEndian, zeroEnd);
              && v == Judge(data.Length, old(dataSize), p)
              && Contents() == old(Contents()) + (if v == Pushed then p.bytes else [])
      ensures forall k :: dataSize <= k < data.Length ==> data[k] == old(data[k])
    {
      hide BeBytes, LeBytes, ToUnsigned, StringBytes, UpToNul;
      v := Refused;
      match item
      case Number(width, value) =>
        if dataSize + width.Size() <= data.Length {
          var ok;
          if bigEndian {
            ok := SetBe(dataSize, width, value);
          } else {
            ok := SetLe(dataSize, width, value);
          }
          if ok {
            dataSize := dataSize + width.Size();
            v := Pushed;
          }
        }
      case Str(s) =>
        if dataSize + |s| <= data.Length {
          var len := SetString(dataSize, s, zeroEnd);
          if len.Some? {
            dataSize := dataSize + len.value;
            v := Pushed;
          } else {
            v := Thrown;
          }
        }
    }

    /** `push_data`: every item is tried, also after a refusal, until one throws
        (`None`). Only bytes behind the old content change. */
    method PushData(items: seq<Item>) returns (r: Option<bool>)
      requires Valid()
      requires forall i :: 0 <= i < |items| && items[i].Str? ==> |items[i].s| < MAX_SIZE - 1
      modifies this`dataSize, data
      ensures Valid()
      ensures var b := PushAll(data.Length, old(Contents()), PiecesOf(items, bigEndian, zeroEnd));
              && Contents() == b.content
              && r == if b.thrown then None else Some(b.ok)
      ensures forall k :: dataSize <= k < data.Length ==> data[k] == old(data[k])
    {
      hide PieceOf, Judge;
      var ok := true;
      var i := 0;
      ghost var pieces := PiecesOf(items, bigEndian, zeroEnd);
      ghost var full := PushAll(data.Length, Contents(), pieces);
      while i < |items|
        invariant 0 <= i <= |items|
        invariant Valid()
        invariant forall k :: dataSize <= k < data.Length ==> data[k] == old(data[k])
        invariant var rest := PushAll(data.Length, Contents(), pieces[i..]);
                  && rest.content == full.content
                  && rest.thrown == full.thrown
                  && (ok && rest.ok <==> full.ok)
      {
        ghost var content := Contents();
        assert pieces[i..][0] == pieces[i] && pieces[i..][1..] == pieces[i + 1..];
        var v := PushItem(items[i]);
        if v != Pushed {
          assert Contents() == content;
        }
        if v == Thrown {
          return None;
        }
        ok := v == Pushed && ok;
        i := i + 1;
      }
      return Some(ok);
    }
  }
}
