/** Requests and transfers as the client sees them: what the session makes of the
    bytes of a request, and the bytes it answers with, block by block, in the numbers
    the client asked for. */
module Datagrams {
  import opened Octets
  import opened PacketBuffer
  import opened Requests
  import opened DataFile
  import opened SessionModel
  import opened SessionLaws
  import opened BlockSteps
  import opened Windows

  // ------------------------------------------------------- what is asked for

  /** A request as a client composes it: no NULs in its texts, no empty filename or
      mode. */
  predicate Composed(filename: seq<byte>, mode: seq<byte>, pairs: seq<Pair>) {
    && NulFree(filename) && filename != [] && NulFree(mode) && mode != []
    && forall i :: 0 <= i < |pairs| ==> NulFree(pairs[i].name) && NulFree(pairs[i].value)
  }

  /** A value that `std::stoi` does not accept. */
  predicate TooLarge(p: Pair) {
    IsDigitStr(p.value) && DecimalValue(p.value) > 2_147_483_647
  }

  /** The option called `name`: set to the value last given for it, or not set. */
  function Asked(pairs: seq<Pair>, name: string, otherwise: nat): (r: OptInt) {
    match LastValue(pairs, Ascii(name))
    case Some(v) => OptInt(true, v)
    case None => OptInt(false, otherwise)
  }

  lemma NamesSpelled()
    ensures Ascii("blksize") == NAME_BLKSIZE && Ascii("timeout") == NAME_TIMEOUT
    ensures Ascii("tsize") == NAME_TSIZE && Ascii("windowsize") == NAME_WINDOWSIZE
  {
  }

  lemma ModesSpelled(mode: seq<byte>)
    ensures ModeOf(Lower(mode)) == Netascii <==> SameLetters(mode, Ascii("netascii"))
    ensures ModeOf(Lower(mode)) == Octet <==> SameLetters(mode, Ascii("octet"))
    ensures ModeOf(Lower(mode)) == Binary <==> SameLetters(mode, Ascii("binary"))
    ensures ModeOf(Lower(mode)) == Mail <==> SameLetters(mode, Ascii("mail"))
  {
    hide SameLetters, Lower, LowerByte;
    LowerMatches(mode, Ascii("netascii"));
    LowerMatches(mode, Ascii("octet"));
    LowerMatches(mode, Ascii("binary"));
    LowerMatches(mode, Ascii("mail"));
    assert Ascii("netascii") == [110, 101, 116, 97, 115, 99, 105, 105];
    assert Ascii("octet") == [111, 99, 116, 101, 116];
    assert Ascii("binary") == [98, 105, 110, 97, 114, 121];
    assert Ascii("mail") == [109, 97, 105, 108];
  }

  /** Which pairs count for an option: those with its name, in any mixture of cases, and
      a value of digits only. */
  lemma CountsFor(p: Pair, name: string)
    requires name == "blksize" || name == "timeout" || name == "tsize" || name == "windowsize"
    ensures Sets(p, Ascii(name)) <==> SameLetters(p.name, Ascii(name)) && IsDigitStr(p.value)
  {
    hide SameLetters, Lower;
    NamesSpelled();
    LowerMatches(p.name, Ascii(name));
  }

  /** What the parser makes of a request: its type, filename and mode, and each of the
      four options as it was last given, else its default; whatever bytes follow the
      packet in the buffer. */
  lemma RequestMeans(op: nat, filename: seq<byte>, mode: seq<byte>, pairs: seq<Pair>, stale: seq<byte>)
    requires (op == 1 || op == 2) && Composed(filename, mode, pairs)
    requires forall i :: 0 <= i < |pairs| ==> !TooLarge(pairs[i])
    requires |EncodeRequest(op, filename, mode, pairs) + stale| < MAX_SIZE
    ensures var pkt := EncodeRequest(op, filename, mode, pairs);
            var r := Parse(pkt + stale, |pkt|);
            && r.Parsed? && r.ok
            && r.opt.req == (if op == 1 then Read else Write) && r.opt.filename == filename
            && (r.opt.mode == Netascii <==> SameLetters(mode, Ascii("netascii")))
            && (r.opt.mode == Octet <==> SameLetters(mode, Ascii("octet")))
            && (r.opt.mode == Binary <==> SameLetters(mode, Ascii("binary")))
            && (r.opt.mode == Mail <==> SameLetters(mode, Ascii("mail")))
            && r.opt.blksize == Asked(pairs, "blksize", 512)
            && r.opt.timeout == Asked(pairs, "timeout", 10)
            && r.opt.tsize == Asked(pairs, "tsize", 0)
            && r.opt.windowsize == Asked(pairs, "windowsize", 1)
  {
    hide Parse, EncodeRequest, ModeOf, LastValue, SameLetters, Lower;
    forall i | 0 <= i < |pairs| ensures WellFormedPair(pairs[i]) {
      assert !TooLarge(pairs[i]);
    }
    ParseRoundTrip(op, filename, mode, pairs, stale);
    NamesSpelled();
    ModesSpelled(mode);
  }

  lemma {:induction false} PairsThrow(pkt: seq<byte>, pos: nat, pairs: seq<Pair>, o: Opts, i: nat)
    requires |pkt| < MAX_SIZE && pos <= |pkt| && pkt[pos..] == EncodePairs(pairs)
    requires forall j :: 0 <= j < |pairs| ==> NulFree(pairs[j].name) && NulFree(pairs[j].value)
    requires i < |pairs| && TooLarge(pairs[i])
    ensures ParseOptions(pkt, |pkt|, pos, o).Fault? && ParseOptions(pkt, |pkt|, pos, o).kind == OutOfRange
    decreases |pairs|
  {
    hide GetString;
    var p, rest := pairs[0], EncodePairs(pairs[1..]);
    assert pkt[pos..] == p.name + [0] + (p.value + [0] + rest);
    FieldAt(pkt, pos, p.name, p.value + [0] + rest);
    var pos1 := pos + |p.name| + 1;
    FieldAt(pkt, pos1, p.value, rest);
    if !TooLarge(p) {
      PairsThrow(pkt, pos1 + |p.value| + 1, pairs[1..], ParsePair(o, p.name, p.value).opt, i - 1);
    }
  }

  /** The parser throws at a composed request if and only if some pair has a value
      beyond 2147483647. */
  lemma {:induction false} RequestThrowsExactly(
      op: nat, filename: seq<byte>, mode: seq<byte>, pairs: seq<Pair>, stale: seq<byte>)
    requires (op == 1 || op == 2) && Composed(filename, mode, pairs)
    requires |EncodeRequest(op, filename, mode, pairs) + stale| < MAX_SIZE
    ensures var pkt := EncodeRequest(op, filename, mode, pairs);
            Parse(pkt + stale, |pkt|).Fault? <==> exists i :: 0 <= i < |pairs| && TooLarge(pairs[i])
  {
    hide EncodePairs, ParseOptions, ModeOf, GetString, TooLarge;
    if i: nat :| i < |pairs| && TooLarge(pairs[i]) {
      var pkt := EncodeRequest(op, filename, mode, pairs);
      RequestLayout(op, filename, mode, pairs);
      FieldAt(pkt, 2, filename, mode + [0] + EncodePairs(pairs));
      UpToNulUnique(pkt[2..], filename);
      SameOpcode(pkt, stale);
      ParserStaysInside(pkt, stale);
      var o := DEFAULTS.(req := if op == 1 then Read else Write, filename := filename);
      ModeField(pkt, 2 + |filename| + 1, mode, EncodePairs(pairs), o);
      PairsThrow(pkt, 2 + |filename| + 1 + |mode| + 1, pairs, o.(mode := ModeOf(Lower(mode))), i);
    } else {
      RequestMeans(op, filename, mode, pairs, stale);
    }
  }

  // ---------------------------------------------------------- literal packets

  /** A number in two bytes, the higher one first, modulo 65536. */
  function TwoBytes(n: nat): (r: seq<byte>)
    ensures |r| == 2 && 256 * r[0] as nat + r[1] as nat == n % 65536
  {
    var m := n % 65536;
    [(m / 256) as byte, (m % 256) as byte]
  }

  /** The datagrams of section 5 of RFC 1350: block `n` of `f` in blocks of `b` bytes, an
      acknowledgement, an error. */
  function DataGram(f: seq<byte>, b: nat, n: nat): (r: seq<byte>)
    requires n >= 1
  {
    [0, 3] + TwoBytes(n) + Block(f, b, n)
  }

  function AckGram(n: nat): (r: seq<byte>) {
    [0, 4] + TwoBytes(n)
  }

  function ErrorGram(code: nat, text: seq<byte>): (r: seq<byte>) {
    [0, 5] + TwoBytes(code) + text + [0]
  }

  /** What the socket is handed for the packets sent. */
  function OnTheWire(sent: seq<Pkt>): (r: seq<seq<byte>>)
    ensures |r| == |sent|
  {
    seq(|sent|, i requires 0 <= i < |sent| => Encode(sent[i]))
  }

  lemma OneMoreOnTheWire(sent: seq<Pkt>, p: Pkt)
    ensures OnTheWire(sent + [p]) == OnTheWire(sent) + [Encode(p)]
    ensures OnTheWire([]) == []
  {
    hide Encode;
  }

  lemma HeaderIs(op: byte, n: nat)
    ensures Header(op, Num(n)) == [0, op] + TwoBytes(n)
  {
  }

  lemma GramsEncoded(f: seq<byte>, b: nat, n: nat)
    ensures Encode(Ack(Num(n))) == AckGram(n)
    ensures n >= 1 ==> Encode(DataPkt(f, b, n)) == DataGram(f, b, n)
  {
    hide Block;
    HeaderIs(3, n);
    HeaderIs(4, n);
  }

  /** Block `n` is the bytes from `(n - 1) * b` up to `n * b`, or to the end of the file. */
  lemma BlockIsSlice(f: seq<byte>, b: nat, n: nat)
    requires b > 0 && 1 <= n <= |f| / b + 1
    ensures 0 <= (n - 1) * b <= Min(n * b, |f|) && Block(f, b, n) == f[(n - 1) * b..Min(n * b, |f|)]
  {
    BlockSizes(f, b, n);
    Scale(n - 1, n, b);
  }

  // ------------------------------------------------------- the session started

  /** A session as it is started for a request, under some limit and with some stream. */
  ghost predicate Started(c: Cfg, op: nat, filename: seq<byte>, mode: seq<byte>, pairs: seq<Pair>) {
    && (op == 1 || op == 2) && Composed(filename, mode, pairs)
    && (forall i :: 0 <= i < |pairs| ==> !TooLarge(pairs[i]))
    && var pkt := EncodeRequest(op, filename, mode, pairs);
       |pkt| < MAX_SIZE && Parse(pkt, |pkt|) == Parsed(true, c.opt)
  }

  lemma StartedMeans(c: Cfg, op: nat, filename: seq<byte>, mode: seq<byte>, pairs: seq<Pair>)
    requires Started(c, op, filename, mode, pairs)
    ensures c.opt.req == (if op == 1 then Read else Write)
    ensures c.opt.blksize == Asked(pairs, "blksize", 512) && c.opt.timeout == Asked(pairs, "timeout", 10)
    ensures c.opt.tsize == Asked(pairs, "tsize", 0) && c.opt.windowsize == Asked(pairs, "windowsize", 1)
    ensures SoundOpts(c.opt)
  {
    hide Parse, EncodeRequest, Asked, TooLarge, Composed;
    var pkt := EncodeRequest(op, filename, mode, pairs);
    RequestMeans(op, filename, mode, pairs, []);
    ParseSound(pkt, |pkt|);
    assert pkt + [] == pkt;
  }

  /** Every block size up to 65531 can be served. */
  lemma StartedValid(c: Cfg, op: nat, filename: seq<byte>, mode: seq<byte>, pairs: seq<Pair>)
    requires Started(c, op, filename, mode, pairs) && Asked(pairs, "blksize", 512).value <= 65531
    requires c.limit < 65536
    requires c.opening.Denied? ==> c.opening.code < 65536 && |c.opening.text| + 5 <= 65535
    ensures c.Valid()
  {
    hide Started, Asked;
    StartedMeans(c, op, filename, mode, pairs);
  }

  lemma ReplyIs(o: Opts)
    requires SoundOpts(o)
    ensures Encode(Oack(o)) == [0, 6] + EncodePairs(OackPairs(o))
    ensures |OackPairs(o)| == (if o.blksize.isSet then 1 else 0) + (if o.timeout.isSet then 1 else 0)
                              + (if o.tsize.isSet then 1 else 0) + (if o.windowsize.isSet then 1 else 0)
  {
    hide EncodePairs, Decimal;
  }

  /** The reply to the options: opcode 6, and each option the client set, once, with the
      value it asked for. */
  lemma OptionsConfirmed(c: Cfg, op: nat, filename: seq<byte>, mode: seq<byte>, pairs: seq<Pair>)
    returns (answer: seq<Pair>)
    requires Started(c, op, filename, mode, pairs)
    ensures Encode(Oack(c.opt)) == [0, 6] + EncodePairs(answer)
    ensures LastValue(answer, Ascii("blksize")) == LastValue(pairs, Ascii("blksize"))
    ensures LastValue(answer, Ascii("timeout")) == LastValue(pairs, Ascii("timeout"))
    ensures LastValue(answer, Ascii("tsize")) == LastValue(pairs, Ascii("tsize"))
    ensures LastValue(answer, Ascii("windowsize")) == LastValue(pairs, Ascii("windowsize"))
    ensures |answer| == TimesSet(pairs, "blksize") + TimesSet(pairs, "timeout") + TimesSet(pairs, "tsize")
                        + TimesSet(pairs, "windowsize")
  {
    hide Started, LastValue, EncodePairs, Ascii, Encode, OackPairs, SoundOpts;
    StartedMeans(c, op, filename, mode, pairs);
    NamesSpelled();
    NamesDiffer();
    ReplyIs(c.opt);
    answer := OackPairs(c.opt);
    var none := OptInt(false, 0);
    ChosenFromReply(c.opt, NAME_BLKSIZE, none);
    ChosenFromReply(c.opt, NAME_TIMEOUT, none);
    ChosenFromReply(c.opt, NAME_TSIZE, none);
    ChosenFromReply(c.opt, NAME_WINDOWSIZE, none);
  }

  function TimesSet(pairs: seq<Pair>, name: string): (r: nat) {
    if LastValue(pairs, Ascii(name)).Some? then 1 else 0
  }

  // -------------------------------------------------------------------- reads

  /** A read, without windows, of a file `f` in blocks of `b` bytes as the request asked
      for them. */
  ghost predicate ReadAsked(c: Cfg, filename: seq<byte>, mode: seq<byte>, pairs: seq<Pair>, f: seq<byte>, b: nat) {
    && Started(c, 1, filename, mode, pairs) && c.opening == Opened(f)
    && Asked(pairs, "blksize", 512).value == b && 1 <= b <= 65531
    && Asked(pairs, "windowsize", 1).value <= 1
  }

  /** A run without timeouts in which the client acknowledges what the session has sent,
      each time the session waits for it. */
  ghost predicate AckedInTurn(c: Cfg, evs: seq<Ev>)
    requires c.Valid()
  {
    evs == [] ||
    var init, ev := evs[..|evs| - 1], evs[|evs| - 1];
    && AckedInTurn(c, init)
    && (ev == IDLE || (&& Exec(c, init).stat == AckRx
                       && ev == Ev(Packet(c.client, AckGram(First(c) + Arrived(init))), false)))
  }

  function DataGrams(f: seq<byte>, b: nat, m: nat): (r: seq<seq<byte>>)
    ensures |r| == m
  {
    seq(m, i requires 0 <= i < m => DataGram(f, b, i + 1))
  }

  /** The reply to the options, if there were any, and the first `m` blocks. */
  function Served(c: Cfg, f: seq<byte>, b: nat, m: nat): (r: seq<seq<byte>>) {
    (if c.opt.WasSetAny() then [Encode(Oack(c.opt))] else []) + DataGrams(f, b, m)
  }

  lemma OneMoreServed(c: Cfg, f: seq<byte>, b: nat, m: nat)
    requires m >= 1
    ensures Served(c, f, b, m - 1) + [DataGram(f, b, m)] == Served(c, f, b, m)
  {
    hide DataGram, Encode;
    assert DataGrams(f, b, m) == DataGrams(f, b, m - 1) + [DataGram(f, b, m)];
  }

  lemma NothingServed(c: Cfg, f: seq<byte>, b: nat)
    ensures Served(c, f, b, 0) == if c.opt.WasSetAny() then [Encode(Oack(c.opt))] else []
  {
    hide Encode;
    assert DataGrams(f, b, 0) == [];
  }

  /** Where such a read stands after `a` acknowledgements. */
  ghost predicate Serves(c: Cfg, f: seq<byte>, s: St, a: nat)
    requires c.Valid() && c.Blk() > 0
  {
    var b, n := c.Blk(), FinalBlock(c, f);
    && s.Fits() && !s.crashed && !s.WasError()
    && (s.stat != NeedInit ==> s.file == FileSt(SrvReq.Read, f, s.file.fail))
    && match s.stat
       case NeedInit => s == Start() && a == 0
       case AckOptions => a == 0 && s.stage == 0 && !s.last && !s.file.fail && s.sent == []
       case DataTx =>
         && s.stage == First(c) + a && 1 <= s.stage <= n && !s.file.fail
         && OnTheWire(s.sent) == Served(c, f, b, s.stage - 1)
       case AckRx =>
         && s.stage == First(c) + a <= n && (s.last <==> s.stage == n) && (s.file.fail ==> s.stage == n)
         && OnTheWire(s.sent) == Served(c, f, b, s.stage)
       case Finish => First(c) + a == n + 1 && OnTheWire(s.sent) == Served(c, f, b, n)
       case _ => false
  }

  ghost predicate PlainSetting(c: Cfg, f: seq<byte>) {
    c.Valid() && c.opt.req == Read && c.opening == Opened(f) && c.Blk() > 0 && c.Window() == 1
  }

  lemma ServesSend(c: Cfg, f: seq<byte>, s: St, a: nat)
    requires PlainSetting(c, f) && Serves(c, f, s, a) && s.stat == DataTx
    ensures Serves(c, f, Step(c, s, IDLE), a)
  {
    hide Step, Served, OnTheWire, DataGram, Block, WindowClosed, Encode;
    var n := s.stage;
    SingleWindow(c, n);
    SendsBlock(c, s, IDLE, n);
    OneMoreOnTheWire(s.sent, DataPkt(f, c.Blk(), n));
    GramsEncoded(f, c.Blk(), n);
    OneMoreServed(c, f, c.Blk(), n);
  }

  lemma ServesIdle(c: Cfg, f: seq<byte>, s: St, a: nat)
    requires PlainSetting(c, f) && Serves(c, f, s, a)
    ensures Serves(c, f, Step(c, s, IDLE), a)
  {
    hide Served, OnTheWire, Encode, Overwrite, StepDataTx, FinalBlock;
    if s.stat == DataTx {
      ServesSend(c, f, s, a);
    } else {
      NothingServed(c, f, c.Blk());
      OneMoreOnTheWire(s.sent, Oack(c.opt));
    }
  }

  lemma ServesAck(c: Cfg, f: seq<byte>, s: St, a: nat)
    requires PlainSetting(c, f) && Serves(c, f, s, a) && s.stat == AckRx
    ensures Serves(c, f, Step(c, s, Ev(Packet(c.client, AckGram(First(c) + a)), false)), a + 1)
  {
    hide Step, Served, OnTheWire, Encode, Accepts, RxStage, FinalBlock, AckGram;
    NeighbourNumbers(s.stage);
    TakesAck(c, s, Num(s.stage), false);
    GramsEncoded(f, c.Blk(), s.stage);
  }

  lemma {:induction false} ServesHolds(c: Cfg, f: seq<byte>, evs: seq<Ev>)
    requires PlainSetting(c, f) && AckedInTurn(c, evs)
    ensures Serves(c, f, Exec(c, evs), Arrived(evs))
  {
    hide Step, Serves, AckGram;
    if evs == [] {
      StartServes(c, f);
    } else {
      var init, ev := evs[..|evs| - 1], evs[|evs| - 1];
      ServesHolds(c, f, init);
      if ev == IDLE {
        ServesIdle(c, f, Exec(c, init), Arrived(init));
      } else {
        ServesAck(c, f, Exec(c, init), Arrived(init));
      }
    }
  }

  lemma StartServes(c: Cfg, f: seq<byte>)
    requires PlainSetting(c, f)
    ensures Serves(c, f, Start(), 0)
  {
  }

  lemma AskedSetting(c: Cfg, filename: seq<byte>, mode: seq<byte>, pairs: seq<Pair>, f: seq<byte>, b: nat)
    requires c.Valid() && ReadAsked(c, filename, mode, pairs, f, b)
    ensures PlainSetting(c, f) && c.Blk() == b && FinalBlock(c, f) == |f| / b + 1
  {
    hide Started, Asked;
    StartedMeans(c, 1, filename, mode, pairs);
  }

  /** What the client has been sent after `a` acknowledgements: the reply to its options
      and the blocks up to the one the session has come to, all of them in the end. */
  ghost predicate ReadShown(c: Cfg, f: seq<byte>, b: nat, s: St, a: nat)
    requires b > 0
  {
    var n := |f| / b + 1;
    && !s.WasError() && !s.crashed
    && (s.stat == AckRx ==> s.stage == First(c) + a <= n && OnTheWire(s.sent) == Served(c, f, b, s.stage))
    && (s.stat == DataTx ==>
          1 <= s.stage == First(c) + a <= n && OnTheWire(s.sent) == Served(c, f, b, s.stage - 1))
    && (s.stat == Finish ==> OnTheWire(s.sent) == Served(c, f, b, n))
    && (s.stat == Finish <==> First(c) + a == n + 1)
  }

  lemma ServesShown(c: Cfg, f: seq<byte>, s: St, a: nat)
    requires PlainSetting(c, f) && Serves(c, f, s, a)
    ensures ReadShown(c, f, c.Blk(), s, a)
  {
    hide Served, OnTheWire;
  }

  /** A read as the client sees it, for files of any length: after every run in which it
      acknowledges in turn, the datagrams it was sent are the reply to its options and
      then the blocks of the file, numbered from 1 modulo 65536, in slices of the size it
      asked for, none twice and none left out; and the session has finished exactly when
      the last of them is acknowledged. */
  lemma {:induction false} ReadOnTheWire(
      c: Cfg, filename: seq<byte>, mode: seq<byte>, pairs: seq<Pair>, f: seq<byte>, b: nat, evs: seq<Ev>)
    requires c.Valid() && b > 0 && ReadAsked(c, filename, mode, pairs, f, b) && AckedInTurn(c, evs)
    ensures ReadShown(c, f, b, Exec(c, evs), Arrived(evs))
  {
    hide ExecFrom, Serves, ReadShown, ReadAsked, AckedInTurn;
    AskedSetting(c, filename, mode, pairs, f, b);
    ServesHolds(c, f, evs);
    ServesShown(c, f, Exec(c, evs), Arrived(evs));
  }

  // ------------------------------------------------------------------- writes

  /** A write in blocks of `b` bytes and windows of `w` blocks, as the request asked for
      them; no window, or one of 0, is a window of one block. */
  ghost predicate WriteAsked(c: Cfg, filename: seq<byte>, mode: seq<byte>, pairs: seq<Pair>, b: nat, w: nat) {
    && Started(c, 2, filename, mode, pairs) && c.opening.Opened?
    && Asked(pairs, "blksize", 512).value == b && 1 <= b <= 65531
    && w == (if Asked(pairs, "windowsize", 1).value == 0 then 1 else Asked(pairs, "windowsize", 1).value)
  }

  /** A run without timeouts in which the datagrams of `f` arrive in order, each when
      the session waits for one. */
  ghost predicate SentInOrder(c: Cfg, f: seq<byte>, b: nat, evs: seq<Ev>)
    requires c.Valid() && b > 0
  {
    evs == [] ||
    var init, ev := evs[..|evs| - 1], evs[|evs| - 1];
    && SentInOrder(c, f, b, init)
    && (ev == IDLE || (&& Exec(c, init).stat == DataRx && Arrived(init) < |f| / b + 1
                       && ev == Ev(Packet(c.client, DataGram(f, b, Arrived(init) + 1)), false)))
  }

  function AckGrams(w: nat, m: nat): (r: seq<seq<byte>>)
    ensures |r| == m
  {
    seq(m, i requires 0 <= i < m => AckGram((i + 1) * w))
  }

  /** The answer to the request, and the acknowledgements of the first `m` windows. */
  function Confirmed(c: Cfg, w: nat, m: nat): (r: seq<seq<byte>>) {
    [if c.opt.WasSetAny() then Encode(Oack(c.opt)) else [0, 4, 0, 0]] + AckGrams(w, m)
  }

  lemma {:induction false} ConfirmedIs(c: Cfg, m: nat)
    ensures OnTheWire(SentFor(c, m)) == Confirmed(c, c.Window(), m)
  {
    hide Encode, AckGram, OnTheWire;
    var p := if c.opt.WasSetAny() then Oack(c.opt) else Ack(0);
    if m == 0 {
      OneMoreOnTheWire([], p);
      assert [] + [p] == [p] && SentFor(c, 0) == [p];
      GramsEncoded([], 1, 0);
      assert AckGram(0) == [0, 4, 0, 0] by {
        ZeroAck();
      }
      assert OnTheWire([p]) == [Encode(p)];
      assert AckGrams(c.Window(), 0) == [];
    } else {
      ConfirmedIs(c, m - 1);
      var q := Ack(Num(m * c.Window()));
      assert SentFor(c, m) == SentFor(c, m - 1) + [q];
      OneMoreOnTheWire(SentFor(c, m - 1), q);
      GramsEncoded([], 1, m * c.Window());
      assert AckGrams(c.Window(), m) == AckGrams(c.Window(), m - 1) + [AckGram(m * c.Window())];
    }
  }

  lemma ZeroAck()
    ensures AckGram(0) == [0, 4, 0, 0]
  {
  }

  lemma {:induction false} OrderedAlike(c: Cfg, f: seq<byte>, b: nat, evs: seq<Ev>)
    requires Windows.Setting(c) && c.Blk() == b && SentInOrder(c, f, b, evs)
    ensures InOrder(c, f, evs)
  {
    hide ExecFrom, DataGram, DataPkt, Encode;
    if evs != [] {
      var init := evs[..|evs| - 1];
      OrderedAlike(c, f, b, init);
      GramsEncoded(f, b, Arrived(init) + 1);
    }
  }

  lemma AskedWriteSetting(c: Cfg, filename: seq<byte>, mode: seq<byte>, pairs: seq<Pair>, b: nat, w: nat)
    requires c.Valid() && WriteAsked(c, filename, mode, pairs, b, w)
    ensures Windows.Setting(c) && c.Blk() == b && c.Window() == w
  {
    hide Started, Asked;
    StartedMeans(c, 2, filename, mode, pairs);
  }

  /** What is stored and what the client has been sent after `k` blocks: acknowledgements
      of the full windows among them, all but the last of which is about to be sent in
      `ack_tx`. */
  ghost predicate WriteShown(c: Cfg, f: seq<byte>, b: nat, w: nat, s: St, k: nat)
    requires w >= 1
  {
    && !s.WasError() && !s.crashed
    && (s.stat == DataRx || s.stat == AckTx || s.stat == Finish ==> s.file.content == f[..Min(k * b, |f|)])
    && (s.stat == DataRx || s.stat == Finish ==> OnTheWire(s.sent) == Confirmed(c, w, k / w))
    && (s.stat == AckTx ==>
          && k % w == 0
          && if k == 0 then s.sent == [] else k / w >= 1 && OnTheWire(s.sent) == Confirmed(c, w, k / w - 1))
    && (s.stat == Finish ==> s.file.content == f)
  }

  lemma ProgressShown(c: Cfg, f: seq<byte>, s: St, k: nat)
    requires Windows.Setting(c) && Progress(c, f, s, k)
    ensures WriteShown(c, f, c.Blk(), c.Window(), s, k)
  {
    hide SentFor, Confirmed, OnTheWire;
    WholeFile(f, c.Blk());
    var m := Full(c, k);
    ConfirmedIs(c, m);
    if m >= 1 {
      ConfirmedIs(c, m - 1);
    }
  }

  /** A write as the client sees it, for files of any length: after every run in which
      its datagrams arrive in order, the file holds the bytes of those that arrived, and
      the datagrams it was sent are the answer to its request and then acknowledgements of
      exactly the blocks `w`, `2 * w`, and so on, modulo 65536, for the window it asked
      for, each when all blocks up to it are stored. */
  lemma {:induction false} WriteOnTheWire(
      c: Cfg, filename: seq<byte>, mode: seq<byte>, pairs: seq<Pair>, f: seq<byte>, b: nat, w: nat, evs: seq<Ev>)
    requires c.Valid() && b > 0 && w >= 1 && WriteAsked(c, filename, mode, pairs, b, w) && SentInOrder(c, f, b, evs)
    ensures WriteShown(c, f, b, w, Exec(c, evs), Arrived(evs))
  {
    hide ExecFrom, WriteShown, Progress, WriteAsked, SentInOrder, InOrder;
    AskedWriteSetting(c, filename, mode, pairs, b, w);
    OrderedAlike(c, f, b, evs);
    ProgressHolds(c, f, evs);
    ProgressShown(c, f, Exec(c, evs), Arrived(evs));
  }

  /** When all datagrams have arrived in order, the file is stored; the session then
      acknowledges the last and finishes if and only if the window asked for divides the
      number of blocks. */
  lemma {:induction false} WriteEndsExactly(
      c: Cfg, filename: seq<byte>, mode: seq<byte>, pairs: seq<Pair>, f: seq<byte>, b: nat, w: nat, evs: seq<Ev>)
    requires c.Valid() && b > 0 && w >= 1 && WriteAsked(c, filename, mode, pairs, b, w) && SentInOrder(c, f, b, evs)
    requires Arrived(evs) == |f| / b + 1
    ensures Exec(c, evs).file.content == f
    ensures (|f| / b + 1) % w == 0 <==> exists n: nat :: Exec(c, evs + Idle(n)).stat == Finish
  {
    hide ExecFrom, WriteAsked, SentInOrder;
    AskedWriteSetting(c, filename, mode, pairs, b, w);
    OrderedAlike(c, f, b, evs);
    LastBlockAckedExactly(c, f, evs);
  }

  lemma DataThenAck()
    ensures Switch(DataRx, AckTx) == AckTx
  {
  }

  lemma StoresAny(c: Cfg, s: St, n: nat, payload: seq<byte>)
    requires Windows.Setting(c) && c.Window() == 1 && s.Fits() && s.stat == DataRx && s.stage == n >= 1
    requires !s.crashed && !s.WasError() && s.file.req == SrvReq.Write && 4 + |payload| <= BUF_SIZE
    ensures 0 <= (n - 1) * c.Blk()
    ensures var t := Step(c, s, FromClient(c, Data(Num(n), payload), false));
            t == s.(buf := t.buf, stat := AckTx, last := |payload| != c.Blk(),
                    file := s.file.(content := WriteAt(s.file.content, (n - 1) * c.Blk(), payload)))
  {
    hide Encode, Overwrite, Receive, WriteAt, Accepts, RxStage, WindowClosed, Switch;
    Scale(0, n - 1, c.Blk());
    NeighbourNumbers(n);
    assert Switch(DataRx, AckTx) == AckTx by {
      DataThenAck();
    }
    DataArrives(c, s, Num(n), payload);
    EmptyWrite(s.file.content, (n - 1) * c.Blk());
    SingleWindow(c, n);
  }

  /** The awaited block of a write without windows, with any payload: it is stored at its
      place and acknowledged, and the session ends if and only if the payload is not
      exactly as long as the block size asked for, shorter or longer. */
  lemma {:induction false} OtherLengthEnds(
      c: Cfg, filename: seq<byte>, mode: seq<byte>, pairs: seq<Pair>, b: nat, s: St, n: nat, payload: seq<byte>)
    requires c.Valid() && WriteAsked(c, filename, mode, pairs, b, 1)
    requires s.Fits() && s.stat == DataRx && s.stage == n >= 1 && !s.crashed && !s.WasError()
    requires s.file.req == SrvReq.Write && |payload| <= 65531
    ensures 0 <= (n - 1) * b
    ensures var datagram := [0, 3] + TwoBytes(n) + payload;
            var t := Step(c, Step(c, s, Ev(Packet(c.client, datagram), false)), IDLE);
            && t.file.content == WriteAt(s.file.content, (n - 1) * b, payload)
            && OnTheWire(t.sent) == OnTheWire(s.sent) + [AckGram(n)]
            && t.stat == if |payload| == b then DataRx else Finish
  {
    hide WriteAsked, Step, OnTheWire, WriteAt, Header, Encode, TwoBytes, AckGram;
    AskedWriteSetting(c, filename, mode, pairs, b, 1);
    HeaderIs(3, n);
    assert Encode(Data(Num(n), payload)) == Header(3, Num(n)) + payload by {
      DataEncoded(Num(n), payload);
    }
    StoresAny(c, s, n, payload);
    AckIsSent(c, Step(c, s, FromClient(c, Data(Num(n), payload), false)), IDLE);
    OneMoreOnTheWire(s.sent, Ack(Num(n)));
    GramsEncoded([], 1, n);
  }

  lemma DataEncoded(num: nat, payload: seq<byte>)
    ensures Encode(Data(num, payload)) == Header(3, num) + payload
  {
  }

  // ------------------------------------------------------------------- errors

  lemma ErrorEncoded(code: nat, m: Message)
    requires code < 65536
    ensures Encode(Error(code, m)) == ErrorGram(code, UpToNul(MessageText(m)))
  {
    hide MessageText, UpToNul, Header, TwoBytes;
    HeaderIs(5, code);
  }

  lemma GramReadsBack(code: nat, text: seq<byte>)
    requires code < 65536 && NulFree(text) && |text| + 5 <= BUF_SIZE
    ensures var p := ErrorGram(code, text);
            && ReadBe(p, 0, 2, false) == 5 && ReadBe(p, 2, 2, false) == code && GetString(p, 4, 0) == Text(text)
  {
    hide TwoBytes, UpToNul;
    var p, two := ErrorGram(code, text), TwoBytes(code);
    BeNatTwo(0, 5);
    BeNatTwo(two[0], two[1]);
    assert p[0..2] == [0, 5] && p[2..4] == [two[0], two[1]] && p[4..] == text + [0];
    UpToNulUnique(p[4..], text);
  }

  /** An ERROR packet reads back as its code and its text, up to a NUL in it. */
  lemma ErrorReadsBack(code: nat, m: Message)
    requires code < 65536 && (m.Given? ==> |m.text| + 5 <= BUF_SIZE)
    ensures var p := Encode(Error(code, m));
            && 5 <= |p| <= BUF_SIZE
            && ReadBe(p, 0, 2, false) == 5 && ReadBe(p, 2, 2, false) == code
            && GetString(p, 4, 0) == Text(UpToNul(MessageText(m)))
            && p == ErrorGram(code, UpToNul(MessageText(m)))
  {
    hide MessageText, UpToNul, Encode, ReadBe, GetString;
    ErrorFits(code, m);
    ErrorEncoded(code, m);
    GramReadsBack(code, UpToNul(MessageText(m)));
  }

  lemma AsciiNulFree(s: string)
    requires forall i :: 0 <= i < |s| ==> ' ' <= s[i] <= '~'
    ensures NulFree(Ascii(s))
  {
  }

  /** What a client is told when its stream does not open. */
  function Denial(code: nat, text: seq<byte>): (r: seq<byte>) {
    if code > 0 || text != [] then ErrorGram(code, UpToNul(text))
    else [0, 5, 0, 0] + Ascii("Unknown stream initialize") + Ascii(" error; break session") + [0]
  }

  /** A request whose stream does not open is answered with one ERROR packet, which says
      why, and nothing else: after two turns, whatever arrives. */
  lemma {:induction false} DeniedAnswered(c: Cfg, evs: seq<Ev>)
    requires c.Valid() && c.opening.Denied? && |evs| >= 2
    ensures var s, code, text := Exec(c, evs), c.opening.code, c.opening.text;
            && s.stat == Finish
            && (code > 0 || text != [] ==> s.sent == [Error(code, Message.Given(text))])
            && OnTheWire(s.sent) == [Denial(code, text)]
  {
    hide Encode, Overwrite, StepError, OnTheWire, ErrorGram, Ascii;
    var code, text := c.opening.code, c.opening.text;
    assert evs[..1] == [] + [evs[0]] && evs[..0] == [];
    ExecSnoc(c, [], evs[0]);
    var s := Exec(c, evs[..1]);
    var m := if code > 0 || text != [] then Message.Given(text) else CannotOpenStream;
    assert s.stat == ErrorAndStop && s.sent == [] && s.code == code && s.msg == m;
    ErrorSent(c, evs, 1);
    ErrorReadsBack(code, m);
    OneMoreOnTheWire([], Error(code, m));
    assert [] + [Error(code, m)] == [Error(code, m)];
    if m == CannotOpenStream {
      UnknownDenial();
    }
  }

  lemma UnknownDenial()
    ensures ErrorGram(0, UpToNul(MessageText(CannotOpenStream))) == Denial(0, [])
  {
    hide Ascii, UpToNul, NulFree;
    var a, b := Ascii("Unknown stream initialize"), Ascii(" error; break session");
    UnknownIsText();
    UpToNulUnique(a + b, a + b);
    assert [0, 5] + TwoBytes(0) == [0, 5, 0, 0];
  }

  lemma UnknownIsText()
    ensures NulFree(Ascii("Unknown stream initialize") + Ascii(" error; break session"))
  {
    hide Ascii;
    AsciiNulFree("Unknown stream initialize");
    AsciiNulFree(" error; break session");
  }

  /** An acknowledgement one ahead of the block before the last makes a read prepare a
      block behind the end of the file; it is reported in three turns. */
  lemma AheadReported(c: Cfg, s: St, f: seq<byte>, n: nat, ev: Ev, ev1: Ev)
    requires c.Valid() && c.Blk() > 0 && s.Fits() && s.stat == AckRx && s.stage == n && !s.last
    requires !s.crashed && !s.WasError() && s.file.req == SrvReq.Read && s.file.content == f
    requires n + 1 == |f| / c.Blk() + 1 && (n + 1) % 65536 != 0
    ensures var t := Step(c, Step(c, Step(c, s, Ev(Packet(c.client, AckGram(n + 1)), false)), ev), ev1);
            && t.stat == Finish
            && OnTheWire(t.sent) == OnTheWire(s.sent) + [[0, 5, 0, 0] + Ascii("Failed prepare data to send") + [0]]
  {
    hide Step, Encode, OnTheWire, Ascii, AckGram, Accepts, RxStage, MessageText;
    GramsEncoded(f, c.Blk(), n + 1);
    NeighbourNumbers(n + 1);
    TakesAck(c, s, Num(n + 1), false);
    LastBlockBounds(|f|, c.Blk());
    var s1 := Step(c, s, Ev(Packet(c.client, AckGram(n + 1)), false));
    AheadAccepted(n);
    PreparesBehind(c, s1, ev);
    ReportsError(c, Step(c, s1, ev), ev1);
    OneMoreOnTheWire(s.sent, Error(0, CannotPrepareData));
    ErrorReadsBack(0, CannotPrepareData);
    PrepareReport();
  }

  lemma AheadAccepted(n: nat)
    requires (n + 1) % 65536 != 0
    ensures Accepts(n, Num(n + 1)) && RxStage(n, Num(n + 1)) == n + 1
  {
  }

  lemma PreparesBehind(c: Cfg, s: St, ev: Ev)
    requires c.Valid() && s.Fits() && s.stat == DataTx && !s.crashed && !s.WasError() && s.stage >= 1
    requires s.file.req == SrvReq.Read && (s.stage - 1) * c.Blk() > |s.file.content|
    ensures var t := Step(c, s, ev);
            && t.stat == ErrorAndStop && t.code == 0 && t.msg == CannotPrepareData && t.sent == s.sent
            && !t.crashed && t.Fits()
  {
    hide Header, Overwrite, Splice;
  }

  lemma PrepareReport()
    ensures ErrorGram(0, UpToNul(MessageText(CannotPrepareData)))
            == [0, 5, 0, 0] + Ascii("Failed prepare data to send") + [0]
  {
    hide Ascii, UpToNul, NulFree;
    var text := Ascii("Failed prepare data to send");
    PrepareIsText();
    UpToNulUnique(text, text);
    assert [0, 5] + TwoBytes(0) == [0, 5, 0, 0];
  }

  lemma PrepareIsText()
    ensures NulFree(Ascii("Failed prepare data to send"))
  {
    hide Ascii, NulFree;
    AsciiNulFree("Failed prepare data to send");
  }

  /** A failing socket ends a waiting session at once, with nothing sent. */
  lemma SocketFailureEnds(c: Cfg, s: St, expired: bool)
    requires c.Valid() && s.Fits() && !s.crashed && (s.stat == DataRx || s.stat == AckRx)
    ensures Step(c, s, Ev(SocketError, expired)) == s.(stat := Finish)
  {
  }

  // ------------------------------------------------------------------ ignored

  /** What a waiting session looks at: a packet from its client, with a whole header and
      the opcode it waits for, 3 for a write and 4 for a read. Anything else leaves it as
      silence does, but for the bytes in its buffer. */
  lemma OthersIgnored(c: Cfg, s: St, from: Addr, bytes: seq<byte>, expired: bool)
    requires c.Valid() && s.Fits() && !s.crashed && (s.stat == DataRx || s.stat == AckRx)
    requires !(from == c.client && |bytes| >= 4 && bytes[0] == 0 && bytes[1] == if s.stat == DataRx then 3 else 4)
    ensures var t := Step(c, s, Ev(Packet(from, bytes), expired));
            t == Step(c, s, Ev(Nothing, expired)).(buf := t.buf)
  {
    hide Step, Overwrite;
    var p := Clip(bytes);
    assert |p| >= 4 ==> p[0] == bytes[0] && p[1] == bytes[1];
    NothingForUs(c, s, Packet(from, bytes), expired);
    NothingForUs(c, s, Nothing, expired);
  }
}
