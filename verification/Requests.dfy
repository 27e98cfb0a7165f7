/** The request parser (`Options::buffer_parse`) and the option acknowledgement
    that answers it. */
module Requests {
  import opened Octets
  import opened PacketBuffer

  datatype SrvReq = Unknown | Read | Write

  datatype TransfMode = UnknownMode | Netascii | Octet | Binary | Mail

  /** An option: whether the client set it, and its value or default. */
  datatype OptInt = OptInt(isSet: bool, value: int)

  datatype Opts = Opts(
    req: SrvReq,
    filename: seq<byte>,
    mode: TransfMode,
    blksize: OptInt,
    timeout: OptInt,
    tsize: OptInt,
    windowsize: OptInt)
  {
    predicate WasSetAny() {
      blksize.isSet || timeout.isSet || tsize.isSet || windowsize.isSet
    }
  }

  const DFLT_BLKSIZE := 512
  const DFLT_TIMEOUT := 10
  const DFLT_TSIZE := 0
  const DFLT_WINDOWSIZE := 1

  const DEFAULTS := Opts(Unknown, [], UnknownMode,
                         OptInt(false, DFLT_BLKSIZE), OptInt(false, DFLT_TIMEOUT),
                         OptInt(false, DFLT_TSIZE), OptInt(false, DFLT_WINDOWSIZE))

  /** "blksize", "timeout", "tsize" and "windowsize" in ASCII. */
  const NAME_BLKSIZE: seq<byte> := [98, 108, 107, 115, 105, 122, 101]
  const NAME_TIMEOUT: seq<byte> := [116, 105, 109, 101, 111, 117, 116]
  const NAME_TSIZE: seq<byte> := [116, 115, 105, 122, 101]
  const NAME_WINDOWSIZE: seq<byte> := [119, 105, 110, 100, 111, 119, 115, 105, 122, 101]

  /** The largest value `std::stoi` accepts. */
  const INT_MAX: nat := 0x7FFF_FFFF

  /** "netascii", "octet", "binary" and "mail", compared in lower case. */
  function ModeOf(s: seq<byte>): (r: TransfMode) {
    if s == [110, 101, 116, 97, 115, 99, 105, 105] then Netascii
    else if s == [111, 99, 116, 101, 116] then Octet
    else if s == [98, 105, 110, 97, 114, 121] then Binary
    else if s == [109, 97, 105, 108] then Mail
    else UnknownMode
  }

  /** Stores `v` in the option called `name`, if there is one. */
  function Assign(o: Opts, name: seq<byte>, v: nat): (r: Opts) {
    if name == NAME_BLKSIZE then o.(blksize := OptInt(true, v))
    else if name == NAME_TIMEOUT then o.(timeout := OptInt(true, v))
    else if name == NAME_TSIZE then o.(tsize := OptInt(true, v))
    else if name == NAME_WINDOWSIZE then o.(windowsize := OptInt(true, v))
    else o
  }

  // ------------------------------------------------------------ specification

  /** The exceptions that can leave the parser, and the backward iterator range
      that is undefined behaviour in C++. */
  datatype FaultKind = InvalidArgument | BackwardRange | OutOfRange

  /** How a parse ends; `opt` is what the object holds afterwards. */
  datatype Outcome =
    | Parsed(ok: bool, opt: Opts)
    | Fault(kind: FaultKind, opt: Opts)

  /** The `size_t` difference: it wraps around below zero. */
  function SizeDiff(n: nat, pos: nat): (r: nat)
    requires n < MAX_SIZE && pos <= n + MAX_SIZE
    ensures r < SIZE_MOD
  {
    if pos <= n then n - pos else n - pos + SIZE_MOD
  }

  function FaultOf(f: Fetched): (r: FaultKind)
    requires !f.Text?
  {
    if f.BadOffset? then InvalidArgument else BackwardRange
  }

  /** One option pair: non-digit values are skipped, digit values beyond `int`
      throw, known names are assigned. */
  function ParsePair(o: Opts, name: seq<byte>, val: seq<byte>): (r: Outcome)
    ensures r.Fault? ==> r.kind == OutOfRange
    ensures r.opt.req == o.req
    ensures SoundOpts(o) ==> SoundOpts(r.opt)
  {
    if !IsDigitStr(val) then Parsed(true, o)
    else if DecimalValue(val) > INT_MAX then Fault(OutOfRange, o)
    else Parsed(true, Assign(o, Lower(name), DecimalValue(val)))
  }

  /** The option loop, entered at position `pos`. */
  function ParseOptions(buf: seq<byte>, n: nat, pos: nat, o: Opts): (r: Outcome)
    requires |buf| < MAX_SIZE && n < MAX_SIZE
    decreases if pos < n then n - pos else 0
  {
    if pos >= n then Parsed(true, o)
    else
      var name := GetString(buf, pos, n - pos);
      if !name.Text? then Fault(FaultOf(name), o)
      else
        var pos1 := pos + |name.s| + 1;
        if pos1 >= n then Parsed(true, o)
        else
          var val := GetString(buf, pos1, n - pos1);
          if !val.Text? then Fault(FaultOf(val), o)
          else
            var r := ParsePair(o, name.s, val.s);
            if r.Fault? then r
            else ParseOptions(buf, n, pos1 + |val.s| + 1, r.opt)
  }

  function ParseMode(buf: seq<byte>, n: nat, pos: nat, o: Opts): (r: Outcome)
    requires |buf| < MAX_SIZE && n < MAX_SIZE && pos <= n + MAX_SIZE
  {
    var mode := GetString(buf, pos, SizeDiff(n, pos));
    if !mode.Text? then Fault(FaultOf(mode), o)
    else if |mode.s| == 0 then Parsed(false, o)
    else ParseOptions(buf, n, pos + |mode.s| + 1, o.(mode := ModeOf(Lower(mode.s))))
  }

  function ParseName(buf: seq<byte>, n: nat, o: Opts): (r: Outcome)
    requires |buf| < MAX_SIZE && 2 <= n < MAX_SIZE
  {
    var name := GetString(buf, 2, n - 2);
    if !name.Text? then Fault(FaultOf(name), o)
    else if |name.s| == 0 then Parsed(false, o)
    else ParseMode(buf, n, 2 + |name.s| + 1, o.(filename := name.s))
  }

  /** `buffer_parse` on a buffer whose first `n` bytes are the packet. */
  function Parse(buf: seq<byte>, n: nat): (r: Outcome)
    requires |buf| < MAX_SIZE && n < MAX_SIZE
  {
    if n < 2 then Parsed(false, DEFAULTS)
    else if |buf| < 2 then Fault(InvalidArgument, DEFAULTS)
    else
      var op := ReadBe(buf, 0, 2, true);
      if op == 1 then ParseName(buf, n, DEFAULTS.(req := Read))
      else if op == 2 then ParseName(buf, n, DEFAULTS.(req := Write))
      else Parsed(false, DEFAULTS)
  }

  // -------------------------------------------------- confined to the packet

  /** The name field of a packet: everything after the opcode up to a NUL. */
  function NameField(pkt: seq<byte>): (r: seq<byte>)
    requires |pkt| >= 2
  {
    UpToNul(pkt[2..])
  }

  predicate HasRequestOpcode(pkt: seq<byte>) {
    |pkt| >= 2 && (ReadBe(pkt, 0, 2, true) == 1 || ReadBe(pkt, 0, 2, true) == 2)
  }

  /** What the parser needs of a packet to stay inside it: a request must go on
      after its opcode, and go on after the NUL of a non-empty filename. */
  predicate Confined(pkt: seq<byte>) {
    HasRequestOpcode(pkt) ==>
      |pkt| > 2 && (NameField(pkt) == [] || 2 + |NameField(pkt)| + 1 < |pkt|)
  }

  predicate ReadsInside(r: Outcome) {
    r.Fault? ==> r.kind == OutOfRange
  }

  lemma WindowOfPacket(pkt: seq<byte>, stale: seq<byte>, pos: nat)
    requires |pkt + stale| < MAX_SIZE && pos < |pkt|
    ensures GetString(pkt + stale, pos, |pkt| - pos) == Text(UpToNul(pkt[pos..]))
  {
    GetStringInside(pkt + stale, pos, |pkt| - pos);
    assert (pkt + stale)[pos..|pkt|] == pkt[pos..];
  }

  /** One turn of the option loop sees the fields of the packet. */
  lemma OptionStep(pkt: seq<byte>, stale: seq<byte>, pos: nat, o: Opts)
    requires |pkt + stale| < MAX_SIZE && pos < |pkt|
    ensures var name := UpToNul(pkt[pos..]);
            var pos1 := pos + |name| + 1;
            ParseOptions(pkt + stale, |pkt|, pos, o)
            == if pos1 >= |pkt| then Parsed(true, o)
               else
                 var val := UpToNul(pkt[pos1..]);
                 var r := ParsePair(o, name, val);
                 if r.Fault? then r else ParseOptions(pkt + stale, |pkt|, pos1 + |val| + 1, r.opt)
  {
    hide GetString, UpToNul, ParsePair;
    WindowOfPacket(pkt, stale, pos);
    var pos1 := pos + |UpToNul(pkt[pos..])| + 1;
    if pos1 < |pkt| {
      WindowOfPacket(pkt, stale, pos1);
    }
  }

  /** The option loop never looks beyond the packet. */
  lemma {:induction false} OptionsConfined(pkt: seq<byte>, stale: seq<byte>, pos: nat, o: Opts)
    requires |pkt + stale| < MAX_SIZE
    ensures ParseOptions(pkt + stale, |pkt|, pos, o) == ParseOptions(pkt, |pkt|, pos, o)
    ensures ReadsInside(ParseOptions(pkt, |pkt|, pos, o))
    decreases if pos < |pkt| then |pkt| - pos else 0
  {
    hide ParsePair, UpToNul, ParseOptions;
    assert pkt + [] == pkt;
    if pos < |pkt| {
      OptionStep(pkt, stale, pos, o);
      OptionStep(pkt, [], pos, o);
      var name := UpToNul(pkt[pos..]);
      var pos1 := pos + |name| + 1;
      if pos1 < |pkt| {
        var val := UpToNul(pkt[pos1..]);
        OptionsConfined(pkt, stale, pos1 + |val| + 1, ParsePair(o, name, val).opt);
      }
    } else {
      NoOptions(pkt + stale, |pkt|, pos, o);
      NoOptions(pkt, |pkt|, pos, o);
    }
  }

  lemma {:induction false} NoOptions(buf: seq<byte>, n: nat, pos: nat, o: Opts)
    requires |buf| < MAX_SIZE && n < MAX_SIZE && pos >= n
    ensures ParseOptions(buf, n, pos, o) == Parsed(true, o)
  {
  }

  lemma ModeConfined(pkt: seq<byte>, stale: seq<byte>, pos: nat, o: Opts)
    requires |pkt + stale| < MAX_SIZE && pos < |pkt|
    ensures ParseMode(pkt + stale, |pkt|, pos, o) == ParseMode(pkt, |pkt|, pos, o)
    ensures ReadsInside(ParseMode(pkt, |pkt|, pos, o))
  {
    hide GetString, ModeOf, ParseOptions;
    assert pkt + [] == pkt;
    WindowOfPacket(pkt, stale, pos);
    WindowOfPacket(pkt, [], pos);
    var mode := UpToNul(pkt[pos..]);
    OptionsConfined(pkt, stale, pos + |mode| + 1, o.(mode := ModeOf(Lower(mode))));
  }

  lemma NameConfined(pkt: seq<byte>, stale: seq<byte>, o: Opts)
    requires |pkt + stale| < MAX_SIZE && |pkt| > 2
    requires NameField(pkt) == [] || 2 + |NameField(pkt)| + 1 < |pkt|
    ensures ParseName(pkt + stale, |pkt|, o) == ParseName(pkt, |pkt|, o)
    ensures ReadsInside(ParseName(pkt, |pkt|, o))
  {
    hide GetString, ParseMode, UpToNul;
    assert pkt + [] == pkt;
    WindowOfPacket(pkt, stale, 2);
    WindowOfPacket(pkt, [], 2);
    var name := NameField(pkt);
    if name != [] {
      ModeConfined(pkt, stale, 2 + |name| + 1, o.(filename := name));
    }
  }

  lemma SameOpcode(pkt: seq<byte>, stale: seq<byte>)
    requires |pkt| >= 2
    ensures ReadBe(pkt + stale, 0, 2, true) == ReadBe(pkt, 0, 2, true)
  {
    assert (pkt + stale)[0..2] == pkt[0..2];
  }

  /** A confined packet parses to the same outcome whatever stale bytes follow it
      in the buffer, and the parser never leaves the buffer. */
  lemma ParserStaysInside(pkt: seq<byte>, stale: seq<byte>)
    requires |pkt + stale| < MAX_SIZE && Confined(pkt)
    ensures Parse(pkt + stale, |pkt|) == Parse(pkt, |pkt|)
    ensures ReadsInside(Parse(pkt, |pkt|))
  {
    if |pkt| >= 2 {
      SameOpcode(pkt, stale);
      if HasRequestOpcode(pkt) {
        NameConfined(pkt, stale, DEFAULTS.(req := Read));
        NameConfined(pkt, stale, DEFAULTS.(req := Write));
      }
    }
  }

  /** The request a packet's opcode and filename stand for. */
  function Named(pkt: seq<byte>): (r: Opts)
    requires |pkt| >= 2
  {
    DEFAULTS.(req := if ReadBe(pkt, 0, 2, true) == 1 then Read else Write, filename := NameField(pkt))
  }

  /** A request that ends with the NUL of its filename. */
  predicate EndsWithName(pkt: seq<byte>) {
    HasRequestOpcode(pkt) && NameField(pkt) != [] && 2 + |NameField(pkt)| + 1 == |pkt|
  }

  /** A request whose filename has no NUL. */
  predicate OpenName(pkt: seq<byte>) {
    HasRequestOpcode(pkt) && NameField(pkt) != [] && 2 + |NameField(pkt)| == |pkt|
  }

  lemma UnconfinedCases(pkt: seq<byte>)
    requires !Confined(pkt) && |pkt| > 2
    ensures EndsWithName(pkt) || OpenName(pkt)
  {
  }

  /** Parsing goes on behind the filename. */
  lemma NameThenMode(pkt: seq<byte>, stale: seq<byte>)
    requires |pkt + stale| < MAX_SIZE && HasRequestOpcode(pkt) && |pkt| > 2 && NameField(pkt) != []
    ensures Parse(pkt + stale, |pkt|) == ParseMode(pkt + stale, |pkt|, 2 + |NameField(pkt)| + 1, Named(pkt))
  {
    hide GetString, ParseMode, UpToNul;
    SameOpcode(pkt, stale);
    WindowOfPacket(pkt, stale, 2);
  }

  /** A packet that ends with the NUL of its filename takes its mode from whatever
      follows it in the buffer, and throws when nothing does. */
  lemma {:induction false} ModeFromStale(pkt: seq<byte>, stale: seq<byte>)
    requires |pkt + stale| < MAX_SIZE && EndsWithName(pkt)
    ensures Parse(pkt + stale, |pkt|)
            == if stale == [] then Fault(InvalidArgument, Named(pkt))
               else if stale[0] == 0 then Parsed(false, Named(pkt))
               else Parsed(true, Named(pkt).(mode := ModeOf(Lower(UpToNul(stale)))))
  {
    hide Parse, ModeOf, Named;
    NameThenMode(pkt, stale);
    if stale != [] {
      GetStringInside(pkt + stale, |pkt|, 0);
      assert (pkt + stale)[|pkt|..|pkt + stale|] == stale;
    }
  }

  /** So a stale text chooses the mode. */
  lemma StaleModeChosen(pkt: seq<byte>, mode: seq<byte>, rest: seq<byte>)
    requires EndsWithName(pkt) && NulFree(mode) && mode != []
    requires |pkt + (mode + [0] + rest)| < MAX_SIZE
    ensures Parse(pkt + (mode + [0] + rest), |pkt|) == Parsed(true, Named(pkt).(mode := ModeOf(Lower(mode))))
  {
    hide Parse, ModeOf, Named, UpToNul;
    var stale := mode + [0] + rest;
    ModeFromStale(pkt, stale);
    UpToNulUnique(stale, mode);
  }

  /** A filename without a NUL makes the parser read backwards, or throw when the
      buffer ends with the packet. */
  lemma OpenNameFaults(pkt: seq<byte>, stale: seq<byte>)
    requires |pkt + stale| < MAX_SIZE && OpenName(pkt)
    ensures Parse(pkt + stale, |pkt|) == Fault(if |stale| >= 2 then BackwardRange else InvalidArgument, Named(pkt))
  {
    hide Parse, ModeOf, Named, UpToNul;
    NameThenMode(pkt, stale);
  }

  /** A bare opcode takes its filename from behind the packet, and then reads
      backwards or throws. */
  lemma BareOpcodeFaults(pkt: seq<byte>, stale: seq<byte>)
    requires |pkt| == 2 && HasRequestOpcode(pkt) && |pkt + stale| < MAX_SIZE
    requires stale != [] && stale[0] != 0
    ensures Parse(pkt + stale, |pkt|).Fault? && Parse(pkt + stale, |pkt|).kind != OutOfRange
  {
    hide ModeOf;
    SameOpcode(pkt, stale);
    GetStringInside(pkt + stale, 2, 0);
    assert (pkt + stale)[2..|pkt + stale|] == stale;
  }

  function Fill(n: nat, x: byte): (r: seq<byte>)
    ensures |r| == n && forall i :: 0 <= i < n ==> r[i] == x
  {
    seq(n, _ => x)
  }

  /** In a buffer of the server's size a packet that is not confined parses in two
      ways, or with a read outside it. */
  lemma UnconfinedParses(pkt: seq<byte>)
    requires |pkt| < BUF_SIZE && !Confined(pkt)
    ensures var a, b := Fill(BUF_SIZE - |pkt|, 0), Fill(BUF_SIZE - |pkt|, 1);
            Parse(pkt + a, |pkt|) != Parse(pkt + b, |pkt|) || !ReadsInside(Parse(pkt + b, |pkt|))
  {
    hide Parse, Fill, Confined, UpToNul, EndsWithName, OpenName;
    var a, b := Fill(BUF_SIZE - |pkt|, 0), Fill(BUF_SIZE - |pkt|, 1);
    if |pkt| <= 2 {
      ShortUnconfined(pkt);
      BareOpcodeFaults(pkt, b);
    } else {
      UnconfinedCases(pkt);
      if EndsWithName(pkt) {
        ModeFromStale(pkt, a);
        ModeFromStale(pkt, b);
      } else {
        OpenNameFaults(pkt, b);
      }
    }
  }

  lemma ShortUnconfined(pkt: seq<byte>)
    requires |pkt| <= 2 && !Confined(pkt)
    ensures |pkt| == 2 && HasRequestOpcode(pkt)
  {
  }

  /** The exact condition, for packets in a buffer of the server's size: the outcome
      is a matter of the packet alone, and no read leaves it, if and only if the
      packet is confined. */
  lemma ConfinedExactly(pkt: seq<byte>)
    requires |pkt| < BUF_SIZE
    ensures Confined(pkt) <==>
            forall a: seq<byte>, b: seq<byte> :: |pkt + a| == |pkt + b| == BUF_SIZE ==>
              Parse(pkt + a, |pkt|) == Parse(pkt + b, |pkt|) && ReadsInside(Parse(pkt + b, |pkt|))
  {
    hide Parse, Fill, Confined;
    if Confined(pkt) {
      forall a: seq<byte>, b: seq<byte> | |pkt + a| == |pkt + b| == BUF_SIZE
        ensures Parse(pkt + a, |pkt|) == Parse(pkt + b, |pkt|) && ReadsInside(Parse(pkt + b, |pkt|))
      {
        ParserStaysInside(pkt, a);
        ParserStaysInside(pkt, b);
      }
    } else {
      UnconfinedParses(pkt);
      var a, b := Fill(BUF_SIZE - |pkt|, 0), Fill(BUF_SIZE - |pkt|, 1);
      assert |pkt + a| == |pkt + b| == BUF_SIZE;
    }
  }

  // --------------------------------------------------- requests that throw

  /** From `pos` on, the option fields hold a number beyond `int` in the place of a
      value. */
  predicate Overflows(pkt: seq<byte>, pos: nat)
    decreases if pos < |pkt| then |pkt| - pos else 0
  {
    pos < |pkt| &&
    var pos1 := pos + |UpToNul(pkt[pos..])| + 1;
    pos1 < |pkt| &&
    var val := UpToNul(pkt[pos1..]);
    (IsDigitStr(val) && DecimalValue(val) > INT_MAX) || Overflows(pkt, pos1 + |val| + 1)
  }

  lemma {:induction false} OverflowsExactly(pkt: seq<byte>, stale: seq<byte>, pos: nat, o: Opts)
    requires |pkt + stale| < MAX_SIZE
    ensures ParseOptions(pkt + stale, |pkt|, pos, o).Fault? <==> Overflows(pkt, pos)
    decreases if pos < |pkt| then |pkt| - pos else 0
  {
    hide UpToNul, Assign, ParseOptions, IsDigitStr, DecimalValue;
    if pos < |pkt| {
      OptionStep(pkt, stale, pos, o);
      var name := UpToNul(pkt[pos..]);
      var pos1 := pos + |name| + 1;
      if pos1 < |pkt| {
        var val := UpToNul(pkt[pos1..]);
        OverflowsExactly(pkt, stale, pos1 + |val| + 1, ParsePair(o, name, val).opt);
      }
    } else {
      NoOptions(pkt + stale, |pkt|, pos, o);
    }
  }

  /** The requests that make the parser fail in a buffer of the server's size: a
      filename without a NUL; a packet as large as the buffer that ends with its
      filename; or an option value beyond `int`. */
  predicate Throws(pkt: seq<byte>) {
    HasRequestOpcode(pkt) && NameField(pkt) != [] &&
    var pos := 2 + |NameField(pkt)| + 1;
    if pos > |pkt| then true
    else if pos == |pkt| then |pkt| == BUF_SIZE
    else UpToNul(pkt[pos..]) != [] && Overflows(pkt, pos + |UpToNul(pkt[pos..])| + 1)
  }

  lemma {:induction false} ModeThrows(pkt: seq<byte>, stale: seq<byte>, pos: nat, o: Opts)
    requires |pkt + stale| < MAX_SIZE && pos < |pkt|
    ensures ParseMode(pkt + stale, |pkt|, pos, o).Fault? <==>
            UpToNul(pkt[pos..]) != [] && Overflows(pkt, pos + |UpToNul(pkt[pos..])| + 1)
  {
    hide GetString, UpToNul, ModeOf, ParseOptions, Overflows;
    WindowOfPacket(pkt, stale, pos);
    var mode := UpToNul(pkt[pos..]);
    OverflowsExactly(pkt, stale, pos + |mode| + 1, o.(mode := ModeOf(Lower(mode))));
  }

  /** Whether a request throws is a matter of the packet alone, confined or not. */
  lemma ThrowsExactly(pkt: seq<byte>, stale: seq<byte>)
    requires |pkt| > 2 && |pkt + stale| == BUF_SIZE
    ensures Parse(pkt + stale, |pkt|).Fault? <==> Throws(pkt)
  {
    hide Parse, ParseMode, UpToNul, Overflows;
    if HasRequestOpcode(pkt) && NameField(pkt) != [] {
      var pos := 2 + |NameField(pkt)| + 1;
      if pos > |pkt| {
        OpenNameFaults(pkt, stale);
      } else if pos == |pkt| {
        ModeFromStale(pkt, stale);
      } else {
        NameThenMode(pkt, stale);
        ModeThrows(pkt, stale, pos, Named(pkt));
      }
    } else {
      NotARequest(pkt, stale);
    }
  }

  lemma NotARequest(pkt: seq<byte>, stale: seq<byte>)
    requires |pkt| > 2 && |pkt + stale| < MAX_SIZE && !(HasRequestOpcode(pkt) && NameField(pkt) != [])
    ensures Parse(pkt + stale, |pkt|).Parsed? && !Parse(pkt + stale, |pkt|).ok
  {
    hide GetString, UpToNul, ParseMode;
    SameOpcode(pkt, stale);
    WindowOfPacket(pkt, stale, 2);
  }

  /** A packet that asks for something: opcode 1 or 2, a filename, and a mode, which is
      looked for behind the packet if that ends with the filename. */
  predicate AsksForFile(pkt: seq<byte>, stale: seq<byte>) {
    && |pkt| > 2 && pkt[0] == 0 && (pkt[1] == 1 || pkt[1] == 2) && NameField(pkt) != []
    && var pos := 2 + |NameField(pkt)| + 1;
       if pos < |pkt| then pkt[pos] != 0 else pos == |pkt| && stale != [] && stale[0] != 0
  }

  /** The option loop does not fail but by throwing. */
  lemma {:induction false} OptionsOk(pkt: seq<byte>, stale: seq<byte>, pos: nat, o: Opts)
    requires |pkt + stale| < MAX_SIZE
    ensures var r := ParseOptions(pkt + stale, |pkt|, pos, o); r.Fault? || r.ok
    decreases if pos < |pkt| then |pkt| - pos else 0
  {
    hide ParsePair, UpToNul, ParseOptions;
    if pos < |pkt| {
      OptionStep(pkt, stale, pos, o);
      var name := UpToNul(pkt[pos..]);
      var pos1 := pos + |name| + 1;
      if pos1 < |pkt| {
        var val := UpToNul(pkt[pos1..]);
        OptionsOk(pkt, stale, pos1 + |val| + 1, ParsePair(o, name, val).opt);
      }
    } else {
      NoOptions(pkt + stale, |pkt|, pos, o);
    }
  }

  lemma OpcodeBytes(pkt: seq<byte>)
    requires |pkt| >= 2
    ensures HasRequestOpcode(pkt) <==> pkt[0] == 0 && (pkt[1] == 1 || pkt[1] == 2)
  {
    BeNatTwo(pkt[0], pkt[1]);
    assert pkt[0..2] == [pkt[0], pkt[1]];
    assert Pow256(2) == 65536;
  }

  /** The exact condition for a packet to be taken for a request: it asks for a file and
      does not throw. */
  lemma {:induction false} TakenExactly(pkt: seq<byte>, stale: seq<byte>)
    requires |pkt| > 2 && |pkt + stale| == BUF_SIZE
    ensures var r := Parse(pkt + stale, |pkt|);
            r.Parsed? && r.ok <==> AsksForFile(pkt, stale) && !Throws(pkt)
  {
    hide Parse, ParseOptions, ModeOf, Throws, Named, GetString, HasRequestOpcode;
    OpcodeBytes(pkt);
    ThrowsExactly(pkt, stale);
    if HasRequestOpcode(pkt) && NameField(pkt) != [] {
      var pos := 2 + |NameField(pkt)| + 1;
      if pos > |pkt| {
        OpenNameFaults(pkt, stale);
      } else if pos == |pkt| {
        ModeFromStale(pkt, stale);
      } else {
        NameThenMode(pkt, stale);
        WindowOfPacket(pkt, stale, pos);
        var mode := UpToNul(pkt[pos..]);
        OptionsOk(pkt, stale, pos + |mode| + 1, Named(pkt).(mode := ModeOf(Lower(mode))));
      }
    } else {
      NotARequest(pkt, stale);
    }
  }

  // --------------------------------------------------------------- round trip

  datatype Pair = Pair(name: seq<byte>, value: seq<byte>)

  function EncodePairs(pairs: seq<Pair>): (r: seq<byte>) {
    if pairs == [] then []
    else pairs[0].name + [0] + pairs[0].value + [0] + EncodePairs(pairs[1..])
  }

  /** A request packet as section 5 of RFC 1350 and RFC 2347 lay it out. */
  function EncodeRequest(op: nat, filename: seq<byte>, mode: seq<byte>, pairs: seq<Pair>): (r: seq<byte>) {
    BeBytes(op, 2) + filename + [0] + mode + [0] + EncodePairs(pairs)
  }

  predicate WellFormedPair(p: Pair) {
    && NulFree(p.name) && NulFree(p.value)
    && (IsDigitStr(p.value) ==> DecimalValue(p.value) <= INT_MAX)
  }

  /** Whether a pair gives a value to the option called `name`. */
  predicate Sets(p: Pair, name: seq<byte>) {
    Lower(p.name) == name && IsDigitStr(p.value)
  }

  ghost predicate UnsetFrom(pairs: seq<Pair>, name: seq<byte>, i: nat) {
    forall j :: i <= j < |pairs| ==> !Sets(pairs[j], name)
  }

  ghost predicate LastSets(pairs: seq<Pair>, name: seq<byte>, i: nat) {
    i < |pairs| && Sets(pairs[i], name) && UnsetFrom(pairs, name, i + 1)
  }

  lemma LastSetsFront(pairs: seq<Pair>, name: seq<byte>)
    requires pairs != [] && !Sets(pairs[|pairs| - 1], name)
    ensures UnsetFrom(pairs, name, 0) <==> UnsetFrom(pairs[..|pairs| - 1], name, 0)
    ensures forall i: nat :: LastSets(pairs[..|pairs| - 1], name, i) ==>
                               LastSets(pairs, name, i) && pairs[i] == pairs[..|pairs| - 1][i]
  {
    hide Sets;
    var front := pairs[..|pairs| - 1];
    forall i: nat | LastSets(front, name, i) ensures LastSets(pairs, name, i) && pairs[i] == front[i] {
      assert pairs[i] == front[i];
      forall j | i + 1 <= j < |pairs| ensures !Sets(pairs[j], name) {
        if j < |front| {
          assert pairs[j] == front[j];
        }
      }
    }
    if UnsetFrom(front, name, 0) {
      forall j | 0 <= j < |pairs| ensures !Sets(pairs[j], name) {
        if j < |front| {
          assert pairs[j] == front[j];
        }
      }
    }
  }

  /** The value the last setting pair gives to an option. */
  function LastValue(pairs: seq<Pair>, name: seq<byte>): (r: Option<nat>)
    ensures r.None? <==> UnsetFrom(pairs, name, 0)
    ensures r.Some? ==> exists i: nat :: LastSets(pairs, name, i) && r.value == DecimalValue(pairs[i].value)
  {
    if pairs == [] then None
    else
      var last := pairs[|pairs| - 1];
      if Sets(last, name) then
        assert LastSets(pairs, name, |pairs| - 1);
        Some(DecimalValue(last.value))
      else
        LastSetsFront(pairs, name);
        LastValue(pairs[..|pairs| - 1], name)
  }

  function Chosen(pairs: seq<Pair>, name: seq<byte>, otherwise: OptInt): (r: OptInt) {
    match LastValue(pairs, name)
    case Some(v) => OptInt(true, v)
    case None => otherwise
  }

  /** `o` with each known option taken from the last pair that sets it. */
  function WithPairs(o: Opts, pairs: seq<Pair>): (r: Opts) {
    o.(blksize := Chosen(pairs, NAME_BLKSIZE, o.blksize),
       timeout := Chosen(pairs, NAME_TIMEOUT, o.timeout),
       tsize := Chosen(pairs, NAME_TSIZE, o.tsize),
       windowsize := Chosen(pairs, NAME_WINDOWSIZE, o.windowsize))
  }

  lemma {:induction false} ChosenFirst(pairs: seq<Pair>, name: seq<byte>, otherwise: OptInt)
    requires pairs != []
    ensures Chosen(pairs, name, otherwise)
            == Chosen(pairs[1..], name,
                      if Sets(pairs[0], name) then OptInt(true, DecimalValue(pairs[0].value)) else otherwise)
  {
    hide UnsetFrom, LastSets;
    if |pairs| == 1 {
      assert pairs[..0] == [] && pairs[1..] == [];
    } else if !Sets(pairs[|pairs| - 1], name) {
      ChosenFirst(pairs[..|pairs| - 1], name, otherwise);
      assert pairs[..|pairs| - 1][1..] == pairs[1..][..|pairs| - 2];
    }
  }

  /** Taking the first pair off the list and assigning it changes nothing. */
  lemma WithFirstPair(o: Opts, pairs: seq<Pair>)
    requires pairs != [] && WellFormedPair(pairs[0])
    ensures ParsePair(o, pairs[0].name, pairs[0].value).Parsed?
    ensures WithPairs(o, pairs)
            == WithPairs(ParsePair(o, pairs[0].name, pairs[0].value).opt, pairs[1..])
  {
    ChosenFirst(pairs, NAME_BLKSIZE, o.blksize);
    ChosenFirst(pairs, NAME_TIMEOUT, o.timeout);
    ChosenFirst(pairs, NAME_TSIZE, o.tsize);
    ChosenFirst(pairs, NAME_WINDOWSIZE, o.windowsize);
    NamesDiffer();
  }

  lemma NamesDiffer()
    ensures NAME_BLKSIZE != NAME_TIMEOUT && NAME_BLKSIZE != NAME_TSIZE && NAME_BLKSIZE != NAME_WINDOWSIZE
    ensures NAME_TIMEOUT != NAME_TSIZE && NAME_TIMEOUT != NAME_WINDOWSIZE && NAME_TSIZE != NAME_WINDOWSIZE
  {
    assert NAME_BLKSIZE[0] != NAME_TIMEOUT[0];
  }

  lemma FieldAt(pkt: seq<byte>, pos: nat, text: seq<byte>, rest: seq<byte>)
    requires |pkt| < MAX_SIZE && pos < |pkt|
    requires pkt[pos..] == text + [0] + rest && NulFree(text)
    ensures GetString(pkt, pos, |pkt| - pos) == Text(text)
    ensures pkt[pos + |text| + 1..] == rest
  {
    assert pkt + [] == pkt;
    WindowOfPacket(pkt, [], pos);
    UpToNulUnique(pkt[pos..], text);
    assert pkt[pos + |text| + 1..] == pkt[pos..][|text| + 1..];
  }

  lemma EmptyPairs(o: Opts)
    ensures WithPairs(o, []) == o
  {
  }

  /** The option loop over an encoded list of pairs: every known option gets the
      last all-digit value given for it, or keeps what it was. */
  lemma {:induction false} PairsParse(pkt: seq<byte>, pos: nat, pairs: seq<Pair>, o: Opts)
    requires |pkt| < MAX_SIZE && pos <= |pkt| && pkt[pos..] == EncodePairs(pairs)
    requires forall i :: 0 <= i < |pairs| ==> WellFormedPair(pairs[i])
    ensures ParseOptions(pkt, |pkt|, pos, o) == Parsed(true, WithPairs(o, pairs))
    decreases |pairs|
  {
    hide GetString, ParsePair, WithPairs;
    EmptyPairs(o);
    if pairs != [] {
      var p, rest := pairs[0], EncodePairs(pairs[1..]);
      assert WellFormedPair(p);
      assert pkt[pos..] == p.name + [0] + (p.value + [0] + rest);
      FieldAt(pkt, pos, p.name, p.value + [0] + rest);
      var pos1 := pos + |p.name| + 1;
      FieldAt(pkt, pos1, p.value, rest);
      WithFirstPair(o, pairs);
      PairsParse(pkt, pos1 + |p.value| + 1, pairs[1..], ParsePair(o, p.name, p.value).opt);
    }
  }

  lemma ModeField(pkt: seq<byte>, pos: nat, mode: seq<byte>, rest: seq<byte>, o: Opts)
    requires |pkt| < MAX_SIZE && pos < |pkt| && pkt[pos..] == mode + [0] + rest
    requires NulFree(mode) && mode != []
    ensures pos + |mode| + 1 <= |pkt| && pkt[pos + |mode| + 1..] == rest
    ensures ParseMode(pkt, |pkt|, pos, o)
            == ParseOptions(pkt, |pkt|, pos + |mode| + 1, o.(mode := ModeOf(Lower(mode))))
  {
    hide GetString, ModeOf, ParseOptions, Lower, NulFree;
    assert |pkt[pos..]| == |mode| + 1 + |rest|;
    FieldAt(pkt, pos, mode, rest);
  }

  lemma {:induction false} ModeParses(pkt: seq<byte>, pos: nat, mode: seq<byte>, pairs: seq<Pair>, o: Opts)
    requires |pkt| < MAX_SIZE && pos < |pkt| && pkt[pos..] == mode + [0] + EncodePairs(pairs)
    requires NulFree(mode) && mode != []
    requires forall i :: 0 <= i < |pairs| ==> WellFormedPair(pairs[i])
    ensures ParseMode(pkt, |pkt|, pos, o) == Parsed(true, WithPairs(o.(mode := ModeOf(Lower(mode))), pairs))
  {
    hide ParseMode, WithPairs, ModeOf, ParseOptions, EncodePairs, Lower, NulFree, WellFormedPair;
    ModeField(pkt, pos, mode, EncodePairs(pairs), o);
    PairsParse(pkt, pos + |mode| + 1, pairs, o.(mode := ModeOf(Lower(mode))));
  }

  lemma {:induction false} RequestLayout(op: nat, filename: seq<byte>, mode: seq<byte>, pairs: seq<Pair>)
    requires op < 256
    ensures var pkt := EncodeRequest(op, filename, mode, pairs);
            && |pkt| >= 2 && ReadBe(pkt, 0, 2, true) == op
            && pkt[2..] == filename + [0] + (mode + [0] + EncodePairs(pairs))
  {
    hide EncodePairs;
    var pkt := EncodeRequest(op, filename, mode, pairs);
    BeBytesTwo(op);
    BeNatTwo(0, op as byte);
    assert pkt[0..2] == [0, op as byte];
    assert Pow256(2) == 65536;
  }

  /** Parsing an encoded request gives back its opcode, filename and mode, and for
      every known option the last all-digit value (or the default), whatever stale
      bytes follow the packet. */
  lemma ParseRoundTrip(op: nat, filename: seq<byte>, mode: seq<byte>, pairs: seq<Pair>, stale: seq<byte>)
    requires op == 1 || op == 2
    requires NulFree(filename) && filename != [] && NulFree(mode) && mode != []
    requires forall i :: 0 <= i < |pairs| ==> WellFormedPair(pairs[i])
    requires |EncodeRequest(op, filename, mode, pairs) + stale| < MAX_SIZE
    ensures Parse(EncodeRequest(op, filename, mode, pairs) + stale, |EncodeRequest(op, filename, mode, pairs)|)
            == Parsed(true, WithPairs(DEFAULTS.(req := if op == 1 then Read else Write,
                                                filename := filename,
                                                mode := ModeOf(Lower(mode))), pairs))
  {
    hide GetString, WithPairs, ModeOf, ParseMode, EncodePairs;
    var pkt := EncodeRequest(op, filename, mode, pairs);
    var rest := mode + [0] + EncodePairs(pairs);
    RequestLayout(op, filename, mode, pairs);
    FieldAt(pkt, 2, filename, rest);
    UpToNulUnique(pkt[2..], filename);
    SameOpcode(pkt, stale);
    var o := DEFAULTS.(req := if op == 1 then Read else Write, filename := filename);
    ModeParses(pkt, 2 + |filename| + 1, mode, pairs, o);
    ParserStaysInside(pkt, stale);
  }

  // ------------------------------------------------------- the option reply

  function PairFor(o: OptInt, name: seq<byte>): (r: seq<Pair>) {
    if o.isSet && o.value >= 0 then [Pair(name, Decimal(o.value))] else []
  }

  function OackPairs(o: Opts): (r: seq<Pair>) {
    PairFor(o.blksize, NAME_BLKSIZE) + PairFor(o.timeout, NAME_TIMEOUT)
    + PairFor(o.tsize, NAME_TSIZE) + PairFor(o.windowsize, NAME_WINDOWSIZE)
  }

  /** The option acknowledgement: opcode 6 and the options that were set. */
  function OackBytes(o: Opts): (r: seq<byte>) {
    [0, 6] + EncodePairs(OackPairs(o))
  }

  /** What every option holds after a parse: a set value is an `int` that is not
      negative, an unset one is the default. */
  predicate Sound(o: OptInt, dflt: int) {
    if o.isSet then 0 <= o.value <= INT_MAX else o.value == dflt
  }

  predicate SoundOpts(o: Opts) {
    && Sound(o.blksize, DFLT_BLKSIZE) && Sound(o.timeout, DFLT_TIMEOUT)
    && Sound(o.tsize, DFLT_TSIZE) && Sound(o.windowsize, DFLT_WINDOWSIZE)
  }

  lemma {:induction false} OptionsSound(buf: seq<byte>, n: nat, pos: nat, o: Opts)
    requires |buf| < MAX_SIZE && n < MAX_SIZE && SoundOpts(o)
    ensures SoundOpts(ParseOptions(buf, n, pos, o).opt)
    ensures ParseOptions(buf, n, pos, o).opt.req == o.req
    decreases if pos < n then n - pos else 0
  {
    hide GetString, ParsePair, SoundOpts;
    if pos < n {
      var name := GetString(buf, pos, n - pos);
      if name.Text? && pos + |name.s| + 1 < n {
        var pos1 := pos + |name.s| + 1;
        var val := GetString(buf, pos1, n - pos1);
        if val.Text? && ParsePair(o, name.s, val.s).Parsed? {
          OptionsSound(buf, n, pos1 + |val.s| + 1, ParsePair(o, name.s, val.s).opt);
        }
      }
    }
  }

  /** Whatever bytes are parsed, the object ends up sound; and a parse that reports
      success has recognised a read or a write request. */
  lemma ParseSound(buf: seq<byte>, n: nat)
    requires |buf| < MAX_SIZE && n < MAX_SIZE
    ensures SoundOpts(Parse(buf, n).opt)
    ensures Parse(buf, n).Parsed? && Parse(buf, n).ok ==> Parse(buf, n).opt.req != Unknown
  {
    hide GetString, ParseOptions, ModeOf;
    if n >= 2 && |buf| >= 2 {
      var op := ReadBe(buf, 0, 2, true);
      if op == 1 || op == 2 {
        var o := DEFAULTS.(req := if op == 1 then Read else Write);
        var name := GetString(buf, 2, n - 2);
        if name.Text? && name.s != [] {
          var pos := 2 + |name.s| + 1;
          var mode := GetString(buf, pos, SizeDiff(n, pos));
          if mode.Text? {
            OptionsSound(buf, n, pos + |mode.s| + 1,
                         o.(filename := name.s, mode := ModeOf(Lower(mode.s))));
          }
        }
      }
    }
  }

  lemma DecimalPair(o: OptInt, name: seq<byte>)
    requires o.isSet && 0 <= o.value <= INT_MAX
    requires NulFree(name) && Lower(name) == name
    ensures WellFormedPair(Pair(name, Decimal(o.value)))
    ensures Sets(Pair(name, Decimal(o.value)), name)
    ensures DecimalValue(Decimal(o.value)) == o.value
    ensures |Decimal(o.value)| <= 10
  {
    DecimalRoundTrip(o.value);
    assert Pow10(10) == 10_000_000_000 by {
      assert Pow10(5) == 100_000;
      assert Pow10(10) == 100_000 * Pow10(5);
    }
    DecimalLength(o.value, 10, INT_MAX + 1);
    forall i | 0 <= i < |Decimal(o.value)| ensures Decimal(o.value)[i] != 0 {
      assert IsDigit(Decimal(o.value)[i]);
    }
  }

  lemma {:induction false} ChosenConcat(a: seq<Pair>, b: seq<Pair>, name: seq<byte>, otherwise: OptInt)
    ensures Chosen(a + b, name, otherwise) == Chosen(b, name, Chosen(a, name, otherwise))
  {
    hide UnsetFrom, LastSets, Sets;
    if b == [] {
      assert a + b == a;
    } else {
      var init := b[..|b| - 1];
      ChosenConcat(a, init, name, otherwise);
      assert (a + b)[..|a + b| - 1] == a + init;
    }
  }

  predicate PlainName(name: seq<byte>) {
    NulFree(name) && Lower(name) == name && |name| <= 10
  }

  lemma NamesPlain()
    ensures PlainName(NAME_BLKSIZE) && PlainName(NAME_TIMEOUT) && PlainName(NAME_TSIZE) && PlainName(NAME_WINDOWSIZE)
  {
    assert Lower(NAME_BLKSIZE) == NAME_BLKSIZE;
    assert Lower(NAME_TIMEOUT) == NAME_TIMEOUT;
    assert Lower(NAME_TSIZE) == NAME_TSIZE;
    assert Lower(NAME_WINDOWSIZE) == NAME_WINDOWSIZE;
  }

  lemma ChosenOwnPair(o: OptInt, name: seq<byte>, key: seq<byte>, otherwise: OptInt)
    requires PlainName(name) && (o.isSet ==> 0 <= o.value <= INT_MAX)
    ensures Chosen(PairFor(o, name), key, otherwise) == if o.isSet && name == key then o else otherwise
  {
    if o.isSet {
      DecimalPair(o, name);
      assert PairFor(o, name)[..0] == [];
    }
  }

  /** Among the pairs of a reply, an option finds exactly its own. */
  lemma ChosenFromReply(o: Opts, key: seq<byte>, otherwise: OptInt)
    requires SoundOpts(o)
    ensures Chosen(OackPairs(o), key, otherwise)
            == if o.windowsize.isSet && key == NAME_WINDOWSIZE then o.windowsize
               else if o.tsize.isSet && key == NAME_TSIZE then o.tsize
               else if o.timeout.isSet && key == NAME_TIMEOUT then o.timeout
               else if o.blksize.isSet && key == NAME_BLKSIZE then o.blksize
               else otherwise
  {
    hide Chosen, PairFor, PlainName;
    NamesPlain();
    var a, b, c, d := PairFor(o.blksize, NAME_BLKSIZE), PairFor(o.timeout, NAME_TIMEOUT),
                      PairFor(o.tsize, NAME_TSIZE), PairFor(o.windowsize, NAME_WINDOWSIZE);
    ChosenConcat(a, b, key, otherwise);
    ChosenConcat(a + b, c, key, otherwise);
    ChosenConcat(a + b + c, d, key, otherwise);
    var v0 := otherwise;
    ChosenOwnPair(o.blksize, NAME_BLKSIZE, key, v0);
    var v1 := Chosen(a, key, v0);
    ChosenOwnPair(o.timeout, NAME_TIMEOUT, key, v1);
    var v2 := Chosen(b, key, v1);
    ChosenOwnPair(o.tsize, NAME_TSIZE, key, v2);
    var v3 := Chosen(c, key, v2);
    ChosenOwnPair(o.windowsize, NAME_WINDOWSIZE, key, v3);
  }

  lemma ReplyPairWellFormed(o: OptInt, name: seq<byte>, dflt: int)
    requires PlainName(name) && Sound(o, dflt)
    ensures forall i :: 0 <= i < |PairFor(o, name)| ==>
                          && WellFormedPair(PairFor(o, name)[i])
                          && |PairFor(o, name)[i].name| <= 10 && |PairFor(o, name)[i].value| <= 10
  {
    if o.isSet {
      DecimalPair(o, name);
    }
  }

  lemma ReplyPairs(o: Opts)
    requires SoundOpts(o)
    ensures |OackPairs(o)| <= 4
    ensures forall i :: 0 <= i < |OackPairs(o)| ==>
                          && WellFormedPair(OackPairs(o)[i])
                          && |OackPairs(o)[i].name| <= 10 && |OackPairs(o)[i].value| <= 10
  {
    hide WellFormedPair;
    NamesPlain();
    ReplyPairWellFormed(o.blksize, NAME_BLKSIZE, DFLT_BLKSIZE);
    ReplyPairWellFormed(o.timeout, NAME_TIMEOUT, DFLT_TIMEOUT);
    ReplyPairWellFormed(o.tsize, NAME_TSIZE, DFLT_TSIZE);
    ReplyPairWellFormed(o.windowsize, NAME_WINDOWSIZE, DFLT_WINDOWSIZE);
  }

  lemma {:induction false} PairsLength(pairs: seq<Pair>)
    requires forall i :: 0 <= i < |pairs| ==> |pairs[i].name| <= 10 && |pairs[i].value| <= 10
    ensures 2 * |pairs| <= |EncodePairs(pairs)| <= 22 * |pairs|
  {
    if pairs != [] {
      PairsLength(pairs[1..]);
    }
  }

  /** A reply to a parsed request always fits the session's buffer, and is longer
      than a bare opcode exactly when an option was set. */
  lemma ReplyLength(o: Opts)
    requires SoundOpts(o)
    ensures 2 <= |OackBytes(o)| <= 90
    ensures |OackBytes(o)| >= 4 <==> o.WasSetAny()
  {
    ReplyPairs(o);
    PairsLength(OackPairs(o));
    assert OackPairs(o) != [] <==> o.WasSetAny();
  }

  /** Running the option loop over the reply to a parsed request recovers every
      flag and value of that request, whatever stale bytes follow. */
  lemma {:induction false} OackRoundTrip(buf: seq<byte>, n: nat, stale: seq<byte>)
    requires |buf| < MAX_SIZE && n < MAX_SIZE
    requires |OackBytes(Parse(buf, n).opt) + stale| < MAX_SIZE
    ensures var o := Parse(buf, n).opt;
            ParseOptions(OackBytes(o) + stale, |OackBytes(o)|, 2, DEFAULTS)
            == Parsed(true, DEFAULTS.(blksize := o.blksize, timeout := o.timeout,
                                      tsize := o.tsize, windowsize := o.windowsize))
  {
    var o := Parse(buf, n).opt;
    ParseSound(buf, n);
    ReplyParses(o, stale);
  }

  lemma {:induction false} ReplyParses(o: Opts, stale: seq<byte>)
    requires SoundOpts(o) && |OackBytes(o) + stale| < MAX_SIZE
    ensures ParseOptions(OackBytes(o) + stale, |OackBytes(o)|, 2, DEFAULTS)
            == Parsed(true, DEFAULTS.(blksize := o.blksize, timeout := o.timeout,
                                      tsize := o.tsize, windowsize := o.windowsize))
  {
    hide ParseOptions, EncodePairs, OackPairs, WellFormedPair, Chosen;
    ReplyPairs(o);
    OptionsConfined(OackBytes(o), stale, 2, DEFAULTS);
    PairsParse(OackBytes(o), 2, OackPairs(o), DEFAULTS);
    NamesDiffer();
    ChosenFromReply(o, NAME_BLKSIZE, DEFAULTS.blksize);
    ChosenFromReply(o, NAME_TIMEOUT, DEFAULTS.timeout);
    ChosenFromReply(o, NAME_TSIZE, DEFAULTS.tsize);
    ChosenFromReply(o, NAME_WINDOWSIZE, DEFAULTS.windowsize);
  }

  // ----------------------------------------------------------- the parser

  /** `Options`: the fields of a request, overwritten by each parse. */
  class Options {
    var req: SrvReq
    var filename: seq<byte>
    var mode: TransfMode
    var blksize: OptInt
    var timeout: OptInt
    var tsize: OptInt
    var windowsize: OptInt

    ghost function Value(): (r: Opts)
      reads this
    {
      Opts(req, filename, mode, blksize, timeout, tsize, windowsize)
    }

    constructor ()
      ensures Value() == DEFAULTS
    {
      req, filename, mode := Unknown, [], UnknownMode;
      blksize, timeout := OptInt(false, DFLT_BLKSIZE), OptInt(false, DFLT_TIMEOUT);
      tsize, windowsize := OptInt(false, DFLT_TSIZE), OptInt(false, DFLT_WINDOWSIZE);
    }

    method Reset()
      modifies this
      ensures Value() == DEFAULTS
    {
      req, filename, mode := Unknown, [], UnknownMode;
      blksize, timeout := OptInt(false, DFLT_BLKSIZE), OptInt(false, DFLT_TIMEOUT);
      tsize, windowsize := OptInt(false, DFLT_TSIZE), OptInt(false, DFLT_WINDOWSIZE);
    }

    /** One pass through the body of the option loop, after both strings have been
        read; `None` stands for the exception `std::stoi` throws. */
    method TakePair(name: seq<byte>, val: seq<byte>) returns (fault: Option<FaultKind>)
      modifies this
      ensures ParsePair(old(Value()), name, val)
              == (if fault.Some? then Fault(fault.value, Value()) else Parsed(true, Value()))
    {
      fault := None;
      if IsDigitStr(val) {
        if DecimalValue(val) > INT_MAX {
          return Some(OutOfRange);
        }
        var v, key := DecimalValue(val), Lower(name);
        if key == NAME_BLKSIZE {
          blksize := OptInt(true, v);
        } else if key == NAME_TIMEOUT {
          timeout := OptInt(true, v);
        } else if key == NAME_TSIZE {
          tsize := OptInt(true, v);
        } else if key == NAME_WINDOWSIZE {
          windowsize := OptInt(true, v);
        }
      }
    }

    /** The option loop of `buffer_parse`, from `start` on. */
    method TakeOptions(buf: SmBufEx, n: nat, start: nat) returns (fault: Option<FaultKind>)
      requires buf.Valid() && n < MAX_SIZE
      modifies this
      ensures ParseOptions(buf.data[..], n, start, old(Value()))
              == (if fault.Some? then Fault(fault.value, Value()) else Parsed(true, Value()))
    {
      hide GetString, ParsePair;
      var pos := start;
      ghost var all := ParseOptions(buf.data[..], n, start, Value());
      while pos < n
        invariant ParseOptions(buf.data[..], n, pos, Value()) == all
        decreases if pos < n then n - pos else 0
      {
        var name := buf.FetchString(pos, n - pos);
        if !name.Text? {
          return Some(FaultOf(name));
        }
        pos := pos + |name.s| + 1;
        if pos >= n {
          return None;
        }
        var val := buf.FetchString(pos, n - pos);
        if !val.Text? {
          return Some(FaultOf(val));
        }
        pos := pos + |val.s| + 1;
        fault := TakePair(name.s, val.s);
        if fault.Some? {
          return;
        }
      }
      return None;
    }

    /** `buffer_parse`: forgets what the object held, and parses the first `n`
        bytes of the buffer. */
    method BufferParse(buf: SmBufEx, n: nat) returns (r: Outcome)
      requires buf.Valid() && n < MAX_SIZE
      modifies this
      ensures r == Parse(buf.data[..], n) && Value() == r.opt
    {
      hide GetString, ParseOptions, ModeOf, Lower, ReadBe, DEFAULTS;
      Reset();
      if n < 2 {
        return Parsed(false, DEFAULTS);
      }
      var op := buf.GetBe(0, W2, true);
      if op.None? {
        return Fault(InvalidArgument, DEFAULTS);
      }
      if op.value == 1 {
        req := Read;
      } else if op.value == 2 {
        req := Write;
      } else {
        return Parsed(false, DEFAULTS);
      }
      var name := buf.FetchString(2, n - 2);
      if !name.Text? {
        return Fault(FaultOf(name), DEFAULTS.(req := req));
      }
      if |name.s| == 0 {
        return Parsed(false, DEFAULTS.(req := req));
      }
      filename := name.s;
      var pos := 2 + |name.s| + 1;
      var text := buf.FetchString(pos, SizeDiff(n, pos));
      if !text.Text? {
        return Fault(FaultOf(text), DEFAULTS.(req := req, filename := filename));
      }
      if |text.s| == 0 {
        return Parsed(false, DEFAULTS.(req := req, filename := filename));
      }
      mode := ModeOf(Lower(text.s));
      var fault := TakeOptions(buf, n, pos + |text.s| + 1);
      var o := Opts(req, filename, mode, blksize, timeout, tsize, windowsize);
      if fault.Some? {
        return Fault(fault.value, o);
      }
      return Parsed(true, o);
    }
  }
}
