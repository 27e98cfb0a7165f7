/** The session state machine: one iteration of the loop in `Session::run` as a
    function of the session's state and of what the environment does. */
module SessionModel {
  import opened Octets
  import opened PacketBuffer
  import opened Requests
  import opened DataFile

  /** Block numbers travel as 16 bits. */
  const WIRE: nat := 0x1_0000

  function Num(stage: nat): (r: nat)
    ensures r < WIRE
  {
    stage % WIRE
  }

  // ------------------------------------------------------------------ packets

  datatype Pkt =
    | Data(num: nat, payload: seq<byte>)
    | Ack(num: nat)
    | Oack(opt: Opts)
    | Error(code: nat, msg: Message)

  /** The error texts a session can register: one given by the data manager, or one
      of its own. */
  datatype Message =
    | NoMessage
    | Given(text: seq<byte>)
    | CannotOpenStream
    | CannotPrepareData
    | WrongDataNumber
    | WrongAckNumber

  function MessageText(m: Message): (r: seq<byte>) {
    match m
    case NoMessage => []
    case Given(text) => text
    case CannotOpenStream => Ascii("Unknown stream initialize") + Ascii(" error; break session")
    case CannotPrepareData => Ascii("Failed prepare data to send")
    case WrongDataNumber => Ascii("Error received number data block")
    case WrongAckNumber => Ascii("Error received number ack block")
  }

  function Header(op: byte, num: nat): (r: seq<byte>)
    ensures |r| == 4
  {
    [0, op, (num / 256 % 256) as byte, (num % 256) as byte]
  }

  /** The bytes of a packet on the wire. */
  function Encode(p: Pkt): (r: seq<byte>) {
    match p
    case Data(num, payload) => Header(3, num) + payload
    case Ack(num) => Header(4, num)
    case Oack(o) => OackBytes(o)
    case Error(code, m) => Header(5, code) + StringBytes(MessageText(m), true)
  }

  function U16(a: byte, b: byte): (r: nat)
    ensures r < WIRE
  {
    256 * a as nat + b as nat
  }

  /** A header reads back as the opcode and number it was made of. */
  lemma HeaderReads(op: byte, num: nat, rest: seq<byte>)
    requires num < WIRE
    ensures var p := Header(op, num) + rest;
            U16(p[0], p[1]) == op as nat && U16(p[2], p[3]) == num && p[4..] == rest
  {
  }

  lemma ErrorFits(code: nat, m: Message)
    requires m.Given? ==> |m.text| + 5 <= BUF_SIZE
    ensures 5 <= |Encode(Error(code, m))| <= BUF_SIZE
  {
  }

  // ------------------------------------------------------------- configuration

  type Addr = seq<byte>

  /** What opening the stream gives: the content of a file to be read (for a write
      request the content is ignored, the file is new), or an error. */
  datatype Opening = Opened(content: seq<byte>) | Denied(code: nat, text: seq<byte>)

  /** What a session is started with: the parsed request, the retransmission limit
      of the server settings, the client's address and the stream. */
  datatype Cfg = Cfg(opt: Opts, limit: nat, client: Addr, opening: Opening)
  {
    /** `block_size()`: the option cut down to 16 bits. */
    function Blk(): (r: nat)
      ensures r < WIRE
    {
      opt.blksize.value % WIRE
    }

    /** `windowsize()` */
    function Window(): (r: nat)
      ensures r >= 1
    {
      if opt.windowsize.value < 1 then 1 else opt.windowsize.value
    }

    /** A successfully parsed request, a 16-bit limit, and a block that fits the
        buffer behind the four bytes of its header. */
    ghost predicate Valid() {
      && SoundOpts(opt) && opt.req != Unknown
      && limit < WIRE
      && Blk() + 4 <= BUF_SIZE
      && (opening.Denied? ==> opening.code < WIRE && |opening.text| + 5 <= BUF_SIZE)
    }
  }

  // -------------------------------------------------------------------- state

  datatype State =
    | NeedInit
    | ErrorAndStop
    | AckOptions
    | DataTx
    | DataRx
    | AckTx
    | AckRx
    | Retransmit
    | Finish

  /** The table in `switch_to`. */
  predicate Allowed(from: State, to: State) {
    match from
    case NeedInit => (to == Finish || to == ErrorAndStop || to == AckOptions || to == DataTx || to == AckTx)
    case ErrorAndStop => to == Finish
    case AckOptions => (to == DataRx || to == DataTx || to == AckRx || to == AckTx)
    case DataTx => (to == AckRx || to == ErrorAndStop)
    case DataRx => (to == AckTx || to == Retransmit)
    case AckTx => (to == DataRx || to == Finish)
    case AckRx => (to == DataTx || to == Retransmit || to == Finish)
    case Retransmit => (to == DataTx || to == AckTx || to == ErrorAndStop)
    case Finish => false
  }

  /** `switch_to`: a transition the table refuses ends the session. */
  function Switch(from: State, to: State): (r: State) {
    if from == to || Allowed(from, to) then to else Finish
  }

  /** The fields of a session and the locals of `run`. `crashed` stands for an
      exception that leaves `run`; `sent` is every packet handed to the socket. */
  datatype St = St(
    stat: State,
    stage: nat,
    last: bool,
    retr: nat,
    code: nat,
    msg: Message,
    buf: seq<byte>,
    file: FileSt,
    sent: seq<Pkt>,
    crashed: bool)
  {
    predicate WasError() {
      code > 0 || (msg != NoMessage && msg != Given([]))
    }

    function RegisterError(c: nat, m: Message): (r: St) {
      if WasError() then this else this.(code := c, msg := m)
    }

    function SwitchTo(to: State): (r: St) {
      this.(stat := Switch(stat, to))
    }

    /** A state whose buffer has its size and whose error, if any, has a packet
        that fits. */
    ghost predicate Fits() {
      |buf| == BUF_SIZE && (msg.Given? ==> |msg.text| + 5 <= BUF_SIZE)
    }
  }

  function Start(): (r: St) {
    St(NeedInit, 0, false, 0, 0, NoMessage, Zeros(BUF_SIZE), FileSt(Unknown, [], false), [], false)
  }

  /** What `recvfrom` gives: nothing, a socket error, or a packet. */
  datatype Rx = Nothing | SocketError | Packet(from: Addr, bytes: seq<byte>)

  /** One iteration's view of the environment: what there is to receive, and
      whether the timer has expired. States that do not receive ignore it. */
  datatype Ev = Ev(rx: Rx, expired: bool)

  /** A turn in which nothing arrives and the timer runs. */
  const IDLE := Ev(Nothing, false)

  datatype Triple = Nop | Ok | Fail

  // --------------------------------------------------------------- operations

  /** Builds a packet in the buffer and hands it to the socket. */
  function Send(s: St, p: Pkt): (r: St)
    requires |Encode(p)| <= |s.buf|
    ensures |r.buf| == |s.buf|
  {
    s.(buf := Overwrite(s.buf, Encode(p)), sent := s.sent + [p])
  }

  /** The position of a block in its file: negative at stage 0, where the `size_t`
      computation wraps around. */
  function Position(stage: nat, blk: nat): (r: int) {
    (stage - 1) * blk
  }

  /** `construct_data`: the header, and behind it what the stream delivers; the
      rest of the buffer keeps the bytes it had. */
  function ConstructData(c: Cfg, s: St): (r: (St, int))
    requires c.Valid() && s.Fits()
    ensures r.0.Fits()
    ensures 0 <= r.1 ==> 4 + r.1 <= BUF_SIZE
  {
    var rd := ReadAt(s.file, c.Blk(), Position(s.stage, c.Blk()));
    var buf := Splice(Overwrite(s.buf, Header(3, Num(s.stage))), 4, rd.bytes);
    var s1 := s.(buf := buf, file := rd.file);
    (if rd.ret >= 0 then s1 else s1.RegisterError(0, CannotPrepareData), rd.ret)
  }

  /** The stage a received number stands for: the one with that number in the
      65536-block epoch of the current stage. */
  function RxStage(stage: nat, num: nat): (r: int) {
    stage + num - Num(stage)
  }

  /** Whether a received number is acted upon. */
  predicate Accepts(stage: nat, num: nat) {
    0 <= RxStage(stage, num) <= stage + 1
  }

  function ReceiveData(c: Cfg, s: St, num: nat, payload: seq<byte>): (r: (St, Triple)) {
    if !Accepts(s.stage, num) then (s.RegisterError(0, WrongDataNumber), Fail)
    else
      var s1 := s.(stage := RxStage(s.stage, num));
      var pos := Position(s1.stage, c.Blk());
      if s1.file.req != SrvReq.Write || (payload != [] && pos < 0) then (s1.(crashed := true), Fail)
      else if payload == [] then (s1, Ok)
      else (s1.(file := s1.file.(content := WriteAt(s1.file.content, pos, payload))), Ok)
  }

  function ReceiveAck(s: St, num: nat): (r: (St, Triple)) {
    if !Accepts(s.stage, num) then (s.RegisterError(0, WrongAckNumber), Fail)
    else (s.(stage := RxStage(s.stage, num)), Ok)
  }

  /** A datagram as it arrives in the buffer: cut off at the buffer's size. */
  function Clip(raw: seq<byte>): (r: seq<byte>)
    ensures |r| <= BUF_SIZE && r <= raw && (r == raw || |r| == BUF_SIZE)
  {
    if |raw| <= BUF_SIZE then raw else raw[..BUF_SIZE]
  }

  /** Whether a packet is looked at: it comes from the client, has a whole header,
      and its opcode is the one the state waits for. */
  predicate Relevant(c: Cfg, stat: State, from: Addr, p: seq<byte>) {
    && from == c.client && |p| >= 4
    && ((stat == DataRx && U16(p[0], p[1]) == 3) || (stat == AckRx && U16(p[0], p[1]) == 4))
  }

  /** `receive_no_wait` */
  function Receive(c: Cfg, s: St, rx: Rx): (r: (St, Triple))
    requires s.Fits()
    ensures r.0.Fits()
  {
    match rx
    case Nothing => (s, Nop)
    case SocketError => (s, Fail)
    case Packet(from, raw) =>
      var p := Clip(raw);
      var s1 := s.(buf := Overwrite(s.buf, p));
      if !Relevant(c, s.stat, from, p) then (s1, Nop)
      else if s.stat == DataRx then ReceiveData(c, s1, U16(p[2], p[3]), p[4..])
      else ReceiveAck(s1, U16(p[2], p[3]))
  }

  /** `is_window_close` */
  predicate WindowClosed(c: Cfg, stage: nat) {
    stage % c.Window() == 0
  }

  // ---------------------------------------------------------------- the states

  function StepInit(c: Cfg, s: St): (r: St)
    requires c.Valid() && s.Fits()
    ensures r.Fits()
  {
    match c.opening
    case Opened(content) =>
      var f := FileSt(c.opt.req, if c.opt.req == SrvReq.Read then content else [], false);
      var s1 := s.(file := f);
      s1.SwitchTo(if s1.WasError() then ErrorAndStop else AckOptions)
    case Denied(code, text) =>
      var s1 := s.(file := FileSt(c.opt.req, [], false)).RegisterError(code, Given(text));
      s1.RegisterError(0, CannotOpenStream).SwitchTo(ErrorAndStop)
  }

  function StepError(c: Cfg, s: St): (r: St)
    requires s.Fits()
    ensures r.Fits()
  {
    ErrorFits(s.code, s.msg);
    (if s.WasError() then Send(s, Error(s.code, s.msg)) else s).SwitchTo(Finish)
  }

  function StepOptions(c: Cfg, s: St): (r: St)
    requires c.Valid() && s.Fits()
    ensures r.Fits()
  {
    ReplyLength(c.opt);
    var s1 := if c.opt.WasSetAny() then Send(s, Oack(c.opt)) else s;
    match c.opt.req
    case Read =>
      if c.opt.WasSetAny() then s1.SwitchTo(AckRx).(stage := 0) else s1.SwitchTo(DataTx).(stage := 1)
    case Write =>
      if c.opt.WasSetAny() then s1.SwitchTo(DataRx).(stage := 1) else s1.SwitchTo(AckTx).(stage := 0)
    case Unknown => s1.SwitchTo(ErrorAndStop)
  }

  function StepDataTx(c: Cfg, s: St): (r: St)
    requires c.Valid() && s.Fits()
    ensures r.Fits()
  {
    if s.file.req != SrvReq.Read
    then s.(buf := Overwrite(s.buf, Header(3, Num(s.stage))), crashed := true)
    else
      var (s1, n) := ConstructData(c, s);
      if s1.WasError() then s1.SwitchTo(ErrorAndStop)
      else
        var payload := if n >= 0 then s1.buf[4..4 + n] else [];
        var s2 := s1.(sent := s1.sent + [Data(Num(s.stage), payload)], last := n != c.Blk());
        if WindowClosed(c, s.stage) || s2.last then s2.SwitchTo(AckRx) else s2
  }

  function StepDataRx(c: Cfg, s: St, ev: Ev): (r: St)
    requires s.Fits()
    ensures r.Fits()
  {
    var (s1, t) := Receive(c, s, ev.rx);
    if s1.crashed then s1
    else
      match t
      case Nop => if ev.expired then s1.SwitchTo(Retransmit) else s1
      case Ok =>
        var s2 := s1.(last := ev.rx.Packet? && |Clip(ev.rx.bytes)| != c.Blk() + 4);
        if WindowClosed(c, s2.stage) then s2.SwitchTo(AckTx) else s2.(stage := s2.stage + 1)
      case Fail => s1.SwitchTo(ErrorAndStop)
  }

  function StepAckTx(s: St): (r: St)
    requires s.Fits()
    ensures r.Fits()
  {
    var s1 := Send(s, Ack(Num(s.stage))).(stage := s.stage + 1);
    s1.SwitchTo(if s.last then Finish else DataRx)
  }

  function StepAckRx(c: Cfg, s: St, ev: Ev): (r: St)
    requires s.Fits()
    ensures r.Fits()
  {
    var (s1, t) := Receive(c, s, ev.rx);
    if s1.crashed then s1
    else
      match t
      case Nop => if ev.expired then s1.SwitchTo(Retransmit) else s1
      case Ok => if s1.last then s1.SwitchTo(Finish) else s1.SwitchTo(DataTx).(stage := s1.stage + 1)
      case Fail => s1.SwitchTo(ErrorAndStop)
  }

  /** The counter is a `uint16_t`: it wraps around. */
  function StepRetransmit(c: Cfg, s: St): (r: St)
    requires s.Fits()
    ensures r.Fits()
  {
    var s1 := s.(retr := (s.retr + 1) % WIRE);
    if s1.retr > c.limit then s1.SwitchTo(ErrorAndStop)
    else
      match c.opt.req
      case Read => s1.SwitchTo(DataTx)
      case Write => s1.SwitchTo(AckTx)
      case Unknown => s1.SwitchTo(ErrorAndStop)
  }

  /** One iteration of the main loop. */
  function Step(c: Cfg, s: St, ev: Ev): (r: St)
    requires c.Valid() && s.Fits()
    ensures r.Fits()
  {
    if s.crashed then s
    else
      match s.stat
      case NeedInit => StepInit(c, s)
      case ErrorAndStop => StepError(c, s)
      case AckOptions => StepOptions(c, s)
      case DataTx => StepDataTx(c, s)
      case DataRx => StepDataRx(c, s, ev)
      case AckTx => StepAckTx(s)
      case AckRx => StepAckRx(c, s, ev)
      case Retransmit => StepRetransmit(c, s)
      case Finish => s
  }

  /** The state after a session in state `s` has met the given environment. */
  function ExecFrom(c: Cfg, s: St, evs: seq<Ev>): (r: St)
    requires c.Valid() && s.Fits()
    ensures r.Fits()
  {
    if evs == [] then s else Step(c, ExecFrom(c, s, evs[..|evs| - 1]), evs[|evs| - 1])
  }

  /** A whole run. */
  function Exec(c: Cfg, evs: seq<Ev>): (r: St)
    requires c.Valid()
    ensures r.Fits()
  {
    ExecFrom(c, Start(), evs)
  }
}
