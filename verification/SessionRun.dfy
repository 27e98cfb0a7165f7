/** `Session` as the program runs it: fields, a reused packet buffer and a main loop,
    proved against the state machine of `SessionModel`. */
module SessionRun {
  import opened Octets
  import opened PacketBuffer
  import opened Requests
  import opened DataFile
  import opened SessionModel
  import opened SessionLaws
  import opened Datagrams

  /** A session's buffer: 65535 bytes, big-endian numbers, zero-ended texts. */
  ghost predicate Usable(buf: SmBufEx)
    reads buf
  {
    buf.Valid() && buf.data.Length == BUF_SIZE && buf.bigEndian && buf.zeroEnd
  }

  lemma FrontAndRest(before: seq<byte>, after: seq<byte>, n: nat)
    requires |before| == |after| && n <= |after|
    requires forall k :: n <= k < |after| ==> after[k] == before[k]
    ensures after == Overwrite(before, after[..n])
  {
  }

  /** Appends items for which there is room: the content grows by their encodings. */
  method Append(buf: SmBufEx, items: seq<Item>)
    requires Usable(buf)
    requires forall i :: 0 <= i < |items| && items[i].Str? ==> |items[i].s| < BUF_SIZE
    requires Roomy(BUF_SIZE, buf.dataSize, PiecesOf(items, true, true))
    modifies buf`dataSize, buf.data
    ensures Usable(buf)
    ensures buf.Contents() == old(buf.Contents()) + Concat(PiecesOf(items, true, true))
    ensures forall k :: buf.dataSize <= k < BUF_SIZE ==> buf.data[k] == old(buf.data[k])
  {
    ghost var content, pieces := buf.Contents(), PiecesOf(items, true, true);
    RoomyIsAccepted(BUF_SIZE, buf.dataSize, pieces);
    AppendOnly(BUF_SIZE, content, pieces);
    var r := buf.PushData(items);
  }

  lemma NumberPiece(n: nat)
    requires n < WIRE
    ensures PieceOf(Number(W2, n), true, true) == Piece(2, [(n / 256 % 256) as byte, (n % 256) as byte])
  {
    assert Pow256(2) == 65536;
    ModUnique(n, 65536, 0, n);
    BeBytesTwo(n);
  }

  /** Two numbers of 16 bits make a header. */
  lemma HeaderPieces(op: nat, num: nat, items: seq<Item>)
    requires op < 256 && num < WIRE && items == [Number(W2, op), Number(W2, num)]
    ensures Concat(PiecesOf(items, true, true)) == Header(op as byte, num)
    ensures Roomy(BUF_SIZE, 0, PiecesOf(items, true, true))
  {
    NumberPiece(op);
    NumberPiece(num);
    var ps := PiecesOf(items, true, true);
    assert ps[1..][1..] == [];
    assert Concat(ps) == ps[0].bytes + (ps[1].bytes + Concat(ps[1..][1..]));
  }

  lemma ErrorPieces(code: nat, text: seq<byte>, items: seq<Item>)
    requires code < WIRE && |text| + 5 <= BUF_SIZE
    requires items == [Number(W2, 5), Number(W2, code), Str(text)]
    ensures Concat(PiecesOf(items, true, true)) == Header(5, code) + StringBytes(text, true)
    ensures Roomy(BUF_SIZE, 0, PiecesOf(items, true, true))
  {
    NumberPiece(5);
    NumberPiece(code);
    var ps := PiecesOf(items, true, true);
    assert ps[1..][1..] == [ps[2]];
    assert [ps[2]][1..] == [];
    assert Concat([ps[2]]) == ps[2].bytes + Concat([]);
    assert Concat(ps) == ps[0].bytes + (ps[1].bytes + Concat(ps[1..][1..]));
    assert Roomy(BUF_SIZE, 4, [ps[2]]);
    assert Roomy(BUF_SIZE, 2, ps[1..]);
  }

  lemma {:induction false} EncodeBoth(a: seq<Pair>, b: seq<Pair>)
    ensures EncodePairs(a + b) == EncodePairs(a) + EncodePairs(b)
  {
    if a == [] {
      assert a + b == b;
    } else {
      EncodeBoth(a[1..], b);
      assert (a + b)[1..] == a[1..] + b && (a + b)[0] == a[0];
    }
  }

  lemma {:induction false} TextPiece(text: seq<byte>, used: nat, items: seq<Item>)
    requires NulFree(text) && used + |text| + 1 <= BUF_SIZE && items == [Str(text)]
    ensures Concat(PiecesOf(items, true, true)) == text + [0]
    ensures Roomy(BUF_SIZE, used, PiecesOf(items, true, true))
  {
    var ps := PiecesOf(items, true, true);
    RegularPiece(items[0], true);
    assert ps[1..] == [];
  }

  lemma OptionBytes(o: OptInt, name: seq<byte>)
    requires PlainName(name) && (o.isSet ==> 0 <= o.value <= INT_MAX)
    ensures !o.isSet ==> EncodePairs(PairFor(o, name)) == []
    ensures o.isSet ==>
              && NulFree(name) && NulFree(Decimal(o.value)) && |name| + |Decimal(o.value)| + 2 <= 22
              && EncodePairs(PairFor(o, name)) == name + [0] + Decimal(o.value) + [0]
  {
    if o.isSet {
      DecimalPair(o, name);
      assert PairFor(o, name)[1..] == [];
      assert EncodePairs(PairFor(o, name)) == name + [0] + Decimal(o.value) + [0] + EncodePairs([]);
    }
  }

  /** One option of the reply: its name and its value in decimal, if it was set. */
  method PushOption(buf: SmBufEx, o: OptInt, name: seq<byte>)
    requires Usable(buf) && buf.dataSize + 22 <= BUF_SIZE
    requires PlainName(name) && (o.isSet ==> 0 <= o.value <= INT_MAX)
    modifies buf`dataSize, buf.data
    ensures Usable(buf)
    ensures buf.Contents() == old(buf.Contents()) + EncodePairs(PairFor(o, name))
    ensures buf.dataSize <= old(buf.dataSize) + 22
    ensures forall k :: buf.dataSize <= k < BUF_SIZE ==> buf.data[k] == old(buf.data[k])
  {
    hide EncodePairs, PairFor, PiecesOf, Roomy, Concat, Decimal, NulFree;
    OptionBytes(o, name);
    ghost var content := buf.Contents();
    if o.isSet {
      var text := Decimal(o.value);
      TextPiece(name, buf.dataSize, [Str(name)]);
      Append(buf, [Str(name)]);
      TextPiece(text, buf.dataSize, [Str(text)]);
      Append(buf, [Str(text)]);
      assert buf.Contents() == content + (name + [0] + text + [0]);
    } else {
      assert buf.Contents() == content + [];
    }
  }

  /** `construct_opt_reply`: opcode 6 and the options that were set, in order. */
  method ConstructOptReply(buf: SmBufEx, opt: Opts)
    requires Usable(buf) && SoundOpts(opt) && opt.WasSetAny()
    modifies buf`dataSize, buf.data
    ensures Usable(buf) && buf.Contents() == OackBytes(opt)
    ensures |OackBytes(opt)| <= BUF_SIZE
    ensures buf.data[..] == Overwrite(old(buf.data[..]), OackBytes(opt))
  {
    hide EncodePairs, PairFor, PlainName;
    NamesPlain();
    ReplyLength(opt);
    buf.Clear();
    ghost var op := [Number(W2, 6)];
    NumberPiece(6);
    assert PiecesOf(op, true, true)[1..] == [];
    Append(buf, [Number(W2, 6)]);
    assert buf.Contents() == [0, 6];
    PushOption(buf, opt.blksize, NAME_BLKSIZE);
    PushOption(buf, opt.timeout, NAME_TIMEOUT);
    PushOption(buf, opt.tsize, NAME_TSIZE);
    PushOption(buf, opt.windowsize, NAME_WINDOWSIZE);
    ReplyEncoding(opt);
    if buf.dataSize < 4 {
      buf.Clear();
    }
    FrontAndRest(old(buf.data[..]), buf.data[..], buf.dataSize);
  }

  lemma ReplyEncoding(opt: Opts)
    ensures OackBytes(opt)
            == [0, 6] + EncodePairs(PairFor(opt.blksize, NAME_BLKSIZE))
               + EncodePairs(PairFor(opt.timeout, NAME_TIMEOUT))
               + EncodePairs(PairFor(opt.tsize, NAME_TSIZE))
               + EncodePairs(PairFor(opt.windowsize, NAME_WINDOWSIZE))
  {
    hide EncodePairs, PairFor;
    var a, b, d, e := PairFor(opt.blksize, NAME_BLKSIZE), PairFor(opt.timeout, NAME_TIMEOUT),
                      PairFor(opt.tsize, NAME_TSIZE), PairFor(opt.windowsize, NAME_WINDOWSIZE);
    EncodeBoth(a, b);
    EncodeBoth(a + b, d);
    EncodeBoth(a + b + d, e);
  }

  /** The opcode and the number at the front of a buffer a packet has arrived in. */
  lemma FieldsOf(buf: seq<byte>, p: seq<byte>)
    requires 4 <= |p| <= |buf|
    ensures ReadBe(Overwrite(buf, p), 0, 2, false) == U16(p[0], p[1])
    ensures ReadBe(Overwrite(buf, p), 2, 2, false) == U16(p[2], p[3])
  {
    var b := Overwrite(buf, p);
    assert b[0..2] == [p[0], p[1]] && b[2..4] == [p[2], p[3]];
    BeNatTwo(p[0], p[1]);
    BeNatTwo(p[2], p[3]);
  }

  /** What `construct_data` leaves in the buffer are the bytes of a DATA packet. */
  lemma ConstructedBytes(c: Cfg, s: St)
    requires c.Valid() && s.Fits()
    ensures var (r, n) := ConstructData(c, s);
            && (n < 0 ==> r.WasError())
            && (n >= 0 ==> r.buf[..4 + n] == Encode(Data(Num(s.stage), r.buf[4..4 + n])))
  {
    hide ReadAt;
    var (r, n) := ConstructData(c, s);
    if n >= 0 {
      assert r.buf[..4] == Header(3, Num(s.stage));
      assert r.buf[..4 + n] == r.buf[..4] + r.buf[4..4 + n];
    }
  }

  class Session {
    const c: Cfg
    const file: DataMgrFile
    var stat: State
    var stage: nat
    var code: nat
    var msg: Message
    var crashed: bool

    /** The bytes handed to the socket, packet by packet, and the packets they are. */
    var wire: seq<seq<byte>>
    ghost var sent: seq<Pkt>

    ghost predicate Valid()
      reads this
    {
      && c.Valid() && code < WIRE
      && (msg.Given? ==> |msg.text| + 5 <= BUF_SIZE)
      && |wire| == |sent| && forall i :: 0 <= i < |sent| ==> wire[i] == Encode(sent[i])
    }

    /** The session's state, with the locals of `run`. */
    ghost function Now(last: bool, retr: nat, buf: SmBufEx): (r: St)
      reads this, file, buf, buf.data
    {
      St(stat, stage, last, retr, code, msg, buf.data[..], file.Value(), sent, crashed)
    }

    constructor (c: Cfg)
      requires c.Valid()
      ensures Valid() && this.c == c && fresh(file)
      ensures stat == NeedInit && stage == 0 && code == 0 && msg == NoMessage && !crashed
      ensures sent == [] && file.Value() == FileSt(Unknown, [], false)
    {
      this.c := c;
      file := new DataMgrFile(Unknown, []);
      stat, stage := NeedInit, 0;
      code, msg := 0, NoMessage;
      crashed, wire, sent := false, [], [];
    }

    predicate WasError()
      reads this
    {
      code > 0 || (msg != NoMessage && msg != Given([]))
    }

    method SetErrorIfFirst(newCode: nat, newMsg: Message)
      requires newCode < WIRE
      modifies this`code, this`msg
      ensures code == (if old(WasError()) then old(code) else newCode)
      ensures msg == (if old(WasError()) then old(msg) else newMsg)
    {
      if !WasError() {
        code, msg := newCode, newMsg;
      }
    }

    method SwitchTo(to: State) returns (ok: bool)
      modifies this`stat
      ensures ok <==> old(stat) == to || Allowed(old(stat), to)
      ensures stat == Switch(old(stat), to)
    {
      ok := stat == to;
      if !ok {
        match stat
        case NeedInit =>
          ok := to == Finish || to == ErrorAndStop || to == AckOptions || to == DataTx || to == AckTx;
        case ErrorAndStop => ok := to == Finish;
        case AckOptions => ok := to == DataRx || to == DataTx || to == AckRx || to == AckTx;
        case DataTx => ok := to == AckRx || to == ErrorAndStop;
        case DataRx => ok := to == AckTx || to == Retransmit;
        case AckTx => ok := to == DataRx || to == Finish;
        case AckRx => ok := to == DataTx || to == Retransmit || to == Finish;
        case Retransmit => ok := to == DataTx || to == AckTx || to == ErrorAndStop;
        case Finish =>
      }
      if ok {
        stat := to;
      } else {
        stat := Finish;
      }
    }

    /** `transmit_no_wait`: the pushed bytes go to the socket. */
    method Transmit(buf: SmBufEx, ghost p: Pkt)
      requires Valid() && Usable(buf) && buf.Contents() == Encode(p) && |Encode(p)| > 0
      modifies this`wire, this`sent
      ensures Valid() && sent == old(sent) + [p]
    {
      if buf.dataSize > 0 {
        wire := wire + [buf.data[..buf.dataSize]];
        sent := sent + [p];
      }
    }

    // ------------------------------------------------------- building packets

    /** An opcode and the number of the current block. */
    method PushHeader(buf: SmBufEx, op: byte)
      requires Usable(buf)
      modifies buf`dataSize, buf.data
      ensures Usable(buf) && buf.dataSize == 4 && buf.Contents() == Header(op, Num(stage))
      ensures buf.data[..] == Overwrite(old(buf.data[..]), Header(op, Num(stage)))
    {
      buf.Clear();
      HeaderPieces(op as nat, Num(stage), [Number(W2, op as nat), Number(W2, Num(stage))]);
      Append(buf, [Number(W2, op as nat), Number(W2, Num(stage))]);
      FrontAndRest(old(buf.data[..]), buf.data[..], buf.dataSize);
    }

    method ConstructAck(buf: SmBufEx)
      requires Usable(buf)
      modifies buf`dataSize, buf.data
      ensures Usable(buf) && buf.Contents() == Encode(Ack(Num(stage)))
      ensures buf.data[..] == Overwrite(old(buf.data[..]), Encode(Ack(Num(stage))))
    {
      PushHeader(buf, 4);
    }

    method ConstructError(buf: SmBufEx)
      requires Valid() && Usable(buf) && WasError()
      modifies buf`dataSize, buf.data
      ensures Usable(buf) && buf.Contents() == Encode(Error(code, msg)) && |buf.Contents()| > 0
      ensures |Encode(Error(code, msg))| <= BUF_SIZE
      ensures buf.data[..] == Overwrite(old(buf.data[..]), Encode(Error(code, msg)))
    {
      buf.Clear();
      var text := MessageText(msg);
      ErrorFits(code, msg);
      ErrorPieces(code, text, [Number(W2, 5), Number(W2, code), Str(text)]);
      Append(buf, [Number(W2, 5), Number(W2, code), Str(text)]);
      FrontAndRest(old(buf.data[..]), buf.data[..], buf.dataSize);
    }

    /** `construct_data`: the header, then the file's bytes behind it. The result is
        the size read, or `None` for an exception of the data manager. */
    method PrepareData(buf: SmBufEx, last: bool, retr: nat) returns (n: Option<int>)
      requires Valid() && Usable(buf)
      modifies this`code, this`msg, file`fail, buf`dataSize, buf.data
      ensures Valid() && Usable(buf)
      ensures n.Some? <==> file.req == SrvReq.Read
      ensures n.None? ==>
                Now(last, retr, buf)
                == old(Now(last, retr, buf)).(buf := Overwrite(old(buf.data[..]), Header(3, Num(stage))))
      ensures n.Some? ==> (Now(last, retr, buf), n.value) == ConstructData(c, old(Now(last, retr, buf)))
      ensures n.Some? && n.value >= 0 ==> buf.dataSize == 4 + n.value
    {
      hide Header, Encode, Overwrite;
      ghost var was := Now(last, retr, buf);
      PushHeader(buf, 3);
      ghost var head := Overwrite(was.buf, Header(3, Num(stage)));
      ghost var rd := ReadAt(was.file, c.Blk(), Position(stage, c.Blk()));
      n := file.Read(buf, buf.dataSize, c.Blk(), Position(stage, c.Blk()));
      if n.None? {
        return;
      }
      assert buf.data[..] == Splice(head, 4, rd.bytes) && file.Value() == rd.file && n.value == rd.ret;
      ghost var read := was.(buf := Splice(head, 4, rd.bytes), file := rd.file);
      assert Now(last, retr, buf) == read;
      if n.value >= 0 {
        var ok := buf.DataSizeReset(buf.dataSize + n.value);
      } else {
        SetErrorIfFirst(0, CannotPrepareData);
        assert Now(last, retr, buf) == read.RegisterError(0, CannotPrepareData);
      }
    }

    // -------------------------------------------------------------- receiving

    /** Storing a received block; the stage has been set to its number. */
    method StoreData(payload: seq<byte>) returns (ok: bool)
      modifies this`crashed, file`content
      ensures crashed == (old(crashed) || file.req != SrvReq.Write || (payload != [] && Position(stage, c.Blk()) < 0))
      ensures ok <==> !(file.req != SrvReq.Write || (payload != [] && Position(stage, c.Blk()) < 0))
      ensures file.content == (if ok && payload != [] then WriteAt(old(file.content), Position(stage, c.Blk()), payload)
                               else old(file.content))
    {
      var stored := file.Write(payload, Position(stage, c.Blk()));
      ok := stored.Some?;
      if !ok {
        crashed := true;
      }
    }

    /** What arrives lies over the front of the buffer. */
    method Arrive(buf: SmBufEx, p: seq<byte>)
      requires Usable(buf) && |p| <= BUF_SIZE
      modifies buf`dataSize, buf.data
      ensures Usable(buf) && buf.dataSize == |p|
      ensures buf.data[..] == Overwrite(old(buf.data[..]), p)
    {
      buf.Store(0, p);
      assert Splice(old(buf.data[..]), 0, p) == Overwrite(old(buf.data[..]), p);
      var ok := buf.DataSizeReset(|p|);
    }

    /** The DATA branch of `receive_no_wait`. */
    method TakeData(buf: SmBufEx, num: nat, payload: seq<byte>, last: bool, retr: nat) returns (t: Triple)
      requires Valid() && Usable(buf) && num < WIRE
      modifies this`stage, this`code, this`msg, this`crashed, file`content
      ensures Valid()
      ensures (Now(last, retr, buf), t) == ReceiveData(c, old(Now(last, retr, buf)), num, payload)
    {
      hide Encode, WriteAt, Position;
      var rxStage := stage + num - Num(stage);
      if rxStage < 0 || rxStage > stage + 1 {
        SetErrorIfFirst(0, WrongDataNumber);
        return Fail;
      }
      if Num(stage) != num {
        stage := rxStage;
      }
      var ok := StoreData(payload);
      return if ok then Ok else Fail;
    }

    /** The ACK branch of `receive_no_wait`. */
    method TakeAck(buf: SmBufEx, num: nat, last: bool, retr: nat) returns (t: Triple)
      requires Valid() && Usable(buf) && num < WIRE
      modifies this`stage, this`code, this`msg
      ensures Valid()
      ensures (Now(last, retr, buf), t) == ReceiveAck(old(Now(last, retr, buf)), num)
    {
      hide Encode;
      var rxStage := stage + num - Num(stage);
      if rxStage < 0 || rxStage > stage + 1 {
        SetErrorIfFirst(0, WrongAckNumber);
        return Fail;
      }
      if Num(stage) != num {
        stage := rxStage;
      }
      return Ok;
    }

    method ReceiveNoWait(buf: SmBufEx, rx: Rx, last: bool, retr: nat) returns (t: Triple)
      requires Valid() && Usable(buf)
      modifies this`stage, this`code, this`msg, this`crashed, file`content, buf`dataSize, buf.data
      ensures Valid() && Usable(buf)
      ensures (Now(last, retr, buf), t) == Receive(c, old(Now(last, retr, buf)), rx)
      ensures rx.Packet? ==> buf.dataSize == |Clip(rx.bytes)|
    {
      hide Encode, ReceiveData, ReceiveAck, Overwrite, U16;
      match rx
      case Nothing => return Nop;
      case SocketError => return Fail;
      case Packet(from, raw) =>
        var p := Clip(raw);
        ghost var was := buf.data[..];
        Arrive(buf, p);
        if |p| <= 3 || from != c.client {
          return Nop;
        }
        FieldsOf(was, p);
        var op := buf.GetBe(0, W2, false);
        var num := buf.GetBe(2, W2, false);
        if op.value == 3 && stat == DataRx {
          t := TakeData(buf, num.value, p[4..], last, retr);
        } else if op.value == 4 && stat == AckRx {
          t := TakeAck(buf, num.value, last, retr);
        } else {
          t := Nop;
        }
    }

    // ------------------------------------------------------------- the states

    /** State `need_init`, with the stream opened as the configuration says. */
    method DoInit(buf: SmBufEx, last: bool, retr: nat)
      requires Valid() && Usable(buf)
      modifies this`stat, this`code, this`msg, file
      ensures Valid()
      ensures Now(last, retr, buf) == StepInit(c, old(Now(last, retr, buf)))
    {
      hide Encode, Switch, Allowed;
      match c.opening
      case Opened(content) =>
        file.Open(c.opt.req, if c.opt.req == SrvReq.Read then content else []);
        var ok := SwitchTo(if WasError() then ErrorAndStop else AckOptions);
      case Denied(newCode, text) =>
        file.Open(c.opt.req, []);
        SetErrorIfFirst(newCode, Given(text));
        SetErrorIfFirst(0, CannotOpenStream);
        var ok := SwitchTo(ErrorAndStop);
    }

    method DoError(buf: SmBufEx, last: bool, retr: nat)
      requires Valid() && Usable(buf)
      modifies this`stat, this`wire, this`sent, buf`dataSize, buf.data
      ensures Valid() && Usable(buf)
      ensures Now(last, retr, buf) == StepError(c, old(Now(last, retr, buf)))
    {
      hide Encode, Overwrite, Switch, Allowed;
      if WasError() {
        ConstructError(buf);
        Transmit(buf, Error(code, msg));
      }
      var ok := SwitchTo(Finish);
    }

    method SendReply(buf: SmBufEx)
      requires Valid() && Usable(buf) && c.opt.WasSetAny()
      modifies this`wire, this`sent, buf`dataSize, buf.data
      ensures Valid() && Usable(buf) && sent == old(sent) + [Oack(c.opt)]
      ensures |Encode(Oack(c.opt))| <= BUF_SIZE
      ensures buf.data[..] == Overwrite(old(buf.data[..]), Encode(Oack(c.opt)))
    {
      hide Overwrite, OackBytes, SoundOpts;
      ReplyLength(c.opt);
      ConstructOptReply(buf, c.opt);
      assert Encode(Oack(c.opt)) == OackBytes(c.opt);
      Transmit(buf, Oack(c.opt));
    }

    method DoOptions(buf: SmBufEx, last: bool, retr: nat)
      requires Valid() && Usable(buf)
      modifies this`stat, this`stage, this`wire, this`sent, buf`dataSize, buf.data
      ensures Valid() && Usable(buf)
      ensures Now(last, retr, buf) == StepOptions(c, old(Now(last, retr, buf)))
    {
      hide Overwrite, OackBytes, SoundOpts, Encode, Switch, Allowed;
      if c.opt.WasSetAny() {
        ReplyLength(c.opt);
        SendReply(buf);
      }
      match c.opt.req
      case Read =>
        if c.opt.WasSetAny() {
          var ok := SwitchTo(AckRx);
          stage := 0;
        } else {
          var ok := SwitchTo(DataTx);
          stage := 1;
        }
      case Write =>
        if c.opt.WasSetAny() {
          var ok := SwitchTo(DataRx);
          stage := 1;
        } else {
          stage := 0;
          var ok := SwitchTo(AckTx);
        }
      case Unknown => assert false;
    }

    /** The prepared block goes out; a full one inside a window is followed by the next
        turn of the same state. */
    method SendPrepared(buf: SmBufEx, last: bool, retr: nat) returns (last': bool)
      requires Valid() && Usable(buf) && buf.dataSize >= 4
      requires buf.Contents() == Encode(Data(Num(stage), buf.data[4..buf.dataSize]))
      modifies this`stat, this`wire, this`sent
      ensures Valid()
      ensures var s := old(Now(last, retr, buf));
              var s2 := s.(sent := s.sent + [Data(Num(s.stage), s.buf[4..buf.dataSize])],
                           last := buf.dataSize - 4 != c.Blk());
              Now(last', retr, buf) == if WindowClosed(c, s.stage) || s2.last then s2.SwitchTo(AckRx) else s2
    {
      hide Encode, Switch, Allowed, WindowClosed;
      assert buf.data[..][4..buf.dataSize] == buf.data[4..buf.dataSize];
      Transmit(buf, Data(Num(stage), buf.data[4..buf.dataSize]));
      last' := buf.dataSize != c.Blk() + 4;
      if WindowClosed(c, stage) || last' {
        var ok := SwitchTo(AckRx);
      }
    }

    method DoDataTx(buf: SmBufEx, last: bool, retr: nat) returns (last': bool)
      requires Valid() && Usable(buf)
      modifies this`stat, this`code, this`msg, this`crashed, this`wire, this`sent, file`fail, buf`dataSize, buf.data
      ensures Valid() && Usable(buf)
      ensures Now(last', retr, buf) == StepDataTx(c, old(Now(last, retr, buf)))
    {
      hide Overwrite, Encode, ConstructData, Switch, Allowed, WindowClosed;
      last' := last;
      ghost var was := Now(last, retr, buf);
      var n := PrepareData(buf, last, retr);
      if n.None? {
        crashed := true;
        return;
      }
      ConstructedBytes(c, was);
      if WasError() || buf.dataSize == 0 {
        var ok := SwitchTo(ErrorAndStop);
      } else {
        assert buf.Contents() == Now(last, retr, buf).buf[..4 + n.value];
        last' := SendPrepared(buf, last, retr);
      }
    }

    method DoDataRx(buf: SmBufEx, ev: Ev, last: bool, retr: nat) returns (last': bool)
      requires Valid() && Usable(buf)
      modifies this`stat, this`stage, this`code, this`msg, this`crashed, file`content, buf`dataSize, buf.data
      ensures Valid() && Usable(buf)
      ensures Now(last', retr, buf) == StepDataRx(c, old(Now(last, retr, buf)), ev)
    {
      hide Encode, Receive, Switch, Allowed, WindowClosed;
      last' := last;
      var t := ReceiveNoWait(buf, ev.rx, last, retr);
      if crashed {
        return;
      }
      match t
      case Nop =>
        if ev.expired {
          var ok := SwitchTo(Retransmit);
        }
      case Ok =>
        last' := ev.rx.Packet? && buf.dataSize != c.Blk() + 4;
        if WindowClosed(c, stage) {
          var ok := SwitchTo(AckTx);
        } else {
          stage := stage + 1;
        }
      case Fail =>
        var ok := SwitchTo(ErrorAndStop);
    }

    method DoAckTx(buf: SmBufEx, last: bool, retr: nat)
      requires Valid() && Usable(buf)
      modifies this`stat, this`stage, this`wire, this`sent, buf`dataSize, buf.data
      ensures Valid() && Usable(buf)
      ensures Now(last, retr, buf) == StepAckTx(old(Now(last, retr, buf)))
    {
      hide Overwrite, Switch, Allowed;
      ConstructAck(buf);
      Transmit(buf, Ack(Num(stage)));
      stage := stage + 1;
      var ok := SwitchTo(if last then Finish else DataRx);
    }

    method DoAckRx(buf: SmBufEx, ev: Ev, last: bool, retr: nat)
      requires Valid() && Usable(buf)
      modifies this`stat, this`stage, this`code, this`msg, this`crashed, file`content, buf`dataSize, buf.data
      ensures Valid() && Usable(buf)
      ensures Now(last, retr, buf) == StepAckRx(c, old(Now(last, retr, buf)), ev)
    {
      hide Encode, Receive, Switch, Allowed, WindowClosed;
      var t := ReceiveNoWait(buf, ev.rx, last, retr);
      if crashed {
        return;
      }
      match t
      case Nop =>
        if ev.expired {
          var ok := SwitchTo(Retransmit);
        }
      case Ok =>
        if last {
          var ok := SwitchTo(Finish);
        } else {
          var ok := SwitchTo(DataTx);
          stage := stage + 1;
        }
      case Fail =>
        var ok := SwitchTo(ErrorAndStop);
    }

    method DoRetransmit(buf: SmBufEx, last: bool, retr: nat) returns (retr': nat)
      requires Valid() && Usable(buf)
      modifies this`stat
      ensures Valid()
      ensures Now(last, retr', buf) == StepRetransmit(c, old(Now(last, retr, buf)))
    {
      hide Encode, Switch, Allowed;
      retr' := (retr + 1) % WIRE;
      if retr' > c.limit {
        var ok := SwitchTo(ErrorAndStop);
      } else {
        match c.opt.req
        case Unknown => assert false;
        case Read =>
          var ok := SwitchTo(DataTx);
        case Write =>
          var ok := SwitchTo(AckTx);
      }
    }

    // ------------------------------------------------------------ the main loop

    /** The `switch` of the main loop. */
    method Iterate(buf: SmBufEx, ev: Ev, last: bool, retr: nat) returns (last': bool, retr': nat)
      requires Valid() && Usable(buf) && !crashed && stat != Finish
      modifies this, file, buf`dataSize, buf.data
      ensures Valid() && Usable(buf)
      ensures Now(last', retr', buf) == Step(c, old(Now(last, retr, buf)), ev)
    {
      hide Encode, StepInit, StepError, StepOptions, StepDataTx, StepDataRx, StepAckTx, StepAckRx, StepRetransmit;
      last', retr' := last, retr;
      match stat
      case NeedInit => DoInit(buf, last, retr);
      case ErrorAndStop => DoError(buf, last, retr);
      case AckOptions => DoOptions(buf, last, retr);
      case DataTx => last' := DoDataTx(buf, last, retr);
      case DataRx => last' := DoDataRx(buf, ev, last, retr);
      case AckTx => DoAckTx(buf, last, retr);
      case AckRx => DoAckRx(buf, ev, last, retr);
      case Retransmit => retr' := DoRetransmit(buf, last, retr);
    }

    /** `run`, against any environment: it goes through the states of the model, and
        the socket is handed the bytes of the packets the model sends. */
    method Run(evs: seq<Ev>) returns (ghost end: St)
      requires Valid() && !crashed && stat == NeedInit && code == 0 && msg == NoMessage
      requires sent == [] && file.Value() == FileSt(Unknown, [], false)
      modifies this, file
      ensures Valid() && end == Exec(c, evs)
      ensures stat == end.stat && stage == end.stage && code == end.code && msg == end.msg
      ensures crashed == end.crashed && file.Value() == end.file && sent == end.sent
      ensures wire == OnTheWire(end.sent)
      ensures c.opening.Denied? && |evs| >= 2 ==> wire == [Denial(c.opening.code, c.opening.text)]
    {
      hide Encode, Step, Denial;
      var last, retr, i := false, 0, 0;
      var buf := new SmBufEx(BUF_SIZE);
      stage := 0;
      while i < |evs| && stat != Finish && !crashed
        invariant Valid() && Usable(buf) && i <= |evs|
        invariant fresh(buf) && fresh(buf.data)
        invariant Now(last, retr, buf) == Exec(c, evs[..i])
      {
        assert evs[..i + 1][..i] == evs[..i];
        last, retr := Iterate(buf, evs[i], last, retr);
        i := i + 1;
      }
      end := Now(last, retr, buf);
      if i < |evs| {
        StaysEnded(c, evs, i);
      }
      assert evs[..|evs|] == evs;
      if c.opening.Denied? && |evs| >= 2 {
        DeniedAnswered(c, evs);
      }
    }
  }
}
