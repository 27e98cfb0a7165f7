/** What a session does with one block: the exact effect of sending it, of
    receiving it, and of receiving an acknowledgement. */
module BlockSteps {
  import opened Octets
  import opened PacketBuffer
  import opened Requests
  import opened DataFile
  import opened SessionModel
  import opened SessionLaws

  /** The number of the last block of a file. */
  function FinalBlock(c: Cfg, f: seq<byte>): (r: nat)
    requires c.Blk() > 0
    ensures r >= 1
  {
    LastBlock(|f|, c.Blk())
  }

  lemma FinalIs(c: Cfg, f: seq<byte>)
    requires c.Blk() > 0
    ensures FinalBlock(c, f) == LastBlock(|f|, c.Blk())
  {
  }

  /** The first thing the client of a read waits for, and the stage at which its
      session starts: the option acknowledgement (0) if it asked for options, else
      block 1. */
  function First(c: Cfg): (r: nat)
    ensures r <= 1
  {
    if c.opt.WasSetAny() then 0 else 1
  }

  /** The DATA packet of block `n` of a file. */
  function DataPkt(f: seq<byte>, blk: nat, n: nat): (r: Pkt)
    requires n >= 1
  {
    Data(Num(n), Block(f, blk, n))
  }

  function Copies(p: Pkt, k: nat): (r: seq<Pkt>)
    ensures |r| == k
  {
    seq(k, _ => p)
  }

  /** Where the stream can no longer deliver, the session is at the last block and
      the buffer still holds it behind the header. */
  ghost predicate Loaded(c: Cfg, s: St)
    requires c.Blk() > 0 && s.Fits() && c.Valid()
  {
    s.file.fail ==>
      && s.stage == FinalBlock(c, s.file.content)
      && s.buf[4..4 + |Block(s.file.content, c.Blk(), s.stage)|] == Block(s.file.content, c.Blk(), s.stage)
  }

  /** A read session about to send block `n`. */
  ghost predicate ReadyToSend(c: Cfg, s: St, n: nat) {
    && c.Valid() && c.Blk() > 0 && s.Fits()
    && s.stat == DataTx && s.stage == n && !s.crashed && !s.WasError()
    && s.file.req == SrvReq.Read && 1 <= n <= FinalBlock(c, s.file.content)
    && Loaded(c, s)
  }

  /** What `construct_data` puts behind the header: the bytes the stream delivers, or
      what was there. */
  lemma ConstructPayload(c: Cfg, s: St)
    requires c.Valid() && s.Fits()
    ensures var (r, n) := ConstructData(c, s);
            var rd := ReadAt(s.file, c.Blk(), Position(s.stage, c.Blk()));
            && n == rd.ret && r.file == rd.file
            && r.buf[4..4 + |rd.bytes|] == rd.bytes
            && (rd.bytes == [] ==> r.buf[4..] == s.buf[4..])
  {
    hide Header, ReadAt, Position;
  }

  lemma FailedRead(file: FileSt, blk: nat, pos: int)
    requires file.fail && 0 <= |file.content| - pos < blk
    ensures ReadAt(file, blk, pos) == ReadSt(|file.content| - pos, [], file)
  {
  }

  lemma TailOf(a: seq<byte>, b: seq<byte>, n: nat)
    requires |a| == |b| && 4 + n <= |a| && a[4..] == b[4..]
    ensures a[4..4 + n] == b[4..4 + n]
  {
    assert a[4..4 + n] == a[4..][..n] && b[4..4 + n] == b[4..][..n];
  }

  lemma ConstructsBlock(c: Cfg, s: St, n: nat)
    requires ReadyToSend(c, s, n)
    ensures var (r, len) := ConstructData(c, s);
            var b := Block(s.file.content, c.Blk(), n);
            && len == |b| && r.buf[4..4 + len] == b
            && r == s.(buf := r.buf, file := r.file)
            && r.file == s.file.(fail := r.file.fail)
            && Loaded(c, r)
  {
    hide ReadAt, ConstructData, Block;
    ConstructKeeps(c, s);
    ConstructPayload(c, s);
    BlockSizes(s.file.content, c.Blk(), n);
    if !s.file.fail {
      ReadBlock(s.file, c.Blk(), n);
    } else {
      FailedRead(s.file, c.Blk(), Position(n, c.Blk()));
      TailOf(ConstructData(c, s).0.buf, s.buf, |Block(s.file.content, c.Blk(), n)|);
    }
  }

  /** Sending block `n`, 1 to the last: the packet carries the 16-bit number and
      exactly that block's bytes, and it is marked last exactly when it is short;
      also when it is sent again. */
  lemma SendsBlock(c: Cfg, s: St, ev: Ev, n: nat)
    requires ReadyToSend(c, s, n)
    ensures var t := Step(c, s, ev);
            && t == s.(buf := t.buf, file := t.file, last := n == FinalBlock(c, s.file.content), stat := t.stat,
                       sent := s.sent + [DataPkt(s.file.content, c.Blk(), n)])
            && t.file == s.file.(fail := t.file.fail)
            && t.stat == (if WindowClosed(c, n) || n == FinalBlock(c, s.file.content) then AckRx else DataTx)
            && Loaded(c, t)
    ensures |Encode(DataPkt(s.file.content, c.Blk(), n))| <= BUF_SIZE
  {
    hide ConstructData, WindowClosed, Block;
    ConstructsBlock(c, s, n);
    BlockSizes(s.file.content, c.Blk(), n);
  }

  /** The stream fails with the short block, if that holds any bytes. */
  lemma ShortBlockFails(c: Cfg, s: St, ev: Ev, n: nat)
    requires ReadyToSend(c, s, n) && 0 < |s.file.content| - Position(n, c.Blk()) < c.Blk()
    ensures Step(c, s, ev).file.fail
  {
    hide Header, WindowClosed, Overwrite, Splice, Loaded;
    Scale(0, n - 1, c.Blk());
    ConstructKeeps(c, s);
  }

  /** A session at stage 0 about to send: the seek to its negative position fails,
      the packet is numbered 0 and filled with what the buffer happens to hold, and
      from then on the stream is dead. */
  lemma StageZeroSends(c: Cfg, s: St, ev: Ev)
    requires c.Valid() && c.Blk() > 0 && s.Fits() && s.stat == DataTx && s.stage == 0 && !s.crashed && !s.WasError()
    requires s.file.req == SrvReq.Read
    ensures var t := Step(c, s, ev);
            && t == s.(buf := t.buf, stat := AckRx, last := false, file := s.file.(fail := true),
                       sent := s.sent + [Data(0, s.buf[4..4 + c.Blk()])])
            && t.buf[4..] == s.buf[4..]
  {
    hide Header;
    var head := Overwrite(s.buf, Header(3, Num(0)));
    assert Splice(head, 4, []) == head;
    assert head[4..] == s.buf[4..];
    assert head[4..4 + c.Blk()] == head[4..][..c.Blk()];
    assert s.buf[4..4 + c.Blk()] == s.buf[4..][..c.Blk()];
  }

  // ----------------------------------------------------------------- receiving

  /** A packet from the client, as an event. */
  function FromClient(c: Cfg, p: Pkt, expired: bool): (r: Ev) {
    Ev(Packet(c.client, Encode(p)), expired)
  }

  lemma DataArrives(c: Cfg, s: St, num: nat, payload: seq<byte>)
    requires s.Fits() && s.stat == DataRx && num < WIRE && 4 + |payload| <= BUF_SIZE
    ensures var p := Encode(Data(num, payload));
            && Clip(p) == p && |p| == 4 + |payload|
            && Receive(c, s, Packet(c.client, p)) == ReceiveData(c, s.(buf := Overwrite(s.buf, p)), num, payload)
  {
    hide ReceiveData, Overwrite;
    HeaderReads(3, num, payload);
  }

  lemma AckArrives(c: Cfg, s: St, num: nat)
    requires s.Fits() && s.stat == AckRx && num < WIRE
    ensures var p := Encode(Ack(num));
            && Clip(p) == p && |p| == 4
            && Receive(c, s, Packet(c.client, p)) == ReceiveAck(s.(buf := Overwrite(s.buf, p)), num)
  {
    hide ReceiveAck, Overwrite;
    HeaderReads(4, num, []);
    assert Header(4, num) + [] == Header(4, num);
  }

  /** A write session that has stored the first `have` blocks of `f` and waits. */
  ghost predicate Waiting(c: Cfg, s: St, f: seq<byte>, have: nat) {
    && c.Valid() && c.Blk() > 0 && s.Fits()
    && s.stat == DataRx && !s.crashed && !s.WasError()
    && s.file == FileSt(SrvReq.Write, Prefix(f, c.Blk(), have), false)
  }

  lemma DataIsStored(c: Cfg, s: St, f: seq<byte>, have: nat, n: nat)
    requires c.Blk() > 0 && s.file == FileSt(SrvReq.Write, Prefix(f, c.Blk(), have), false)
    requires 1 <= n <= LastBlock(|f|, c.Blk()) && (have == n - 1 || have == n)
    requires Accepts(s.stage, Num(n)) && RxStage(s.stage, Num(n)) == n
    ensures ReceiveData(c, s, Num(n), Block(f, c.Blk(), n))
            == (s.(stage := n, file := s.file.(content := Prefix(f, c.Blk(), n))), Ok)
  {
    hide WriteAt, Block, Prefix, Accepts, RxStage;
    Scale(0, n - 1, c.Blk());
    WriteBlock(f, c.Blk(), n, have);
    EmptyWrite(Prefix(f, c.Blk(), have), (n - 1) * c.Blk());
  }

  /** Receiving block `n`, new or once more: the file then holds the first `n`
      blocks, and the window decides between acknowledging and waiting on. */
  lemma StoresBlock(c: Cfg, s: St, f: seq<byte>, have: nat, n: nat, expired: bool)
    requires Waiting(c, s, f, have)
    requires 1 <= n <= LastBlock(|f|, c.Blk()) && (have == n - 1 || have == n)
    requires Accepts(s.stage, Num(n)) && RxStage(s.stage, Num(n)) == n
    ensures var t := Step(c, s, FromClient(c, DataPkt(f, c.Blk(), n), expired));
            && t == s.(buf := t.buf, file := t.file, last := n == LastBlock(|f|, c.Blk()),
                       stat := t.stat, stage := t.stage)
            && t.file == FileSt(SrvReq.Write, Prefix(f, c.Blk(), n), false)
            && t.stat == (if WindowClosed(c, n) then AckTx else DataRx)
            && t.stage == (if WindowClosed(c, n) then n else n + 1)
  {
    hide Encode, Overwrite, Receive, ReceiveData, Block, Prefix, WindowClosed, Accepts, RxStage;
    var p := Encode(DataPkt(f, c.Blk(), n));
    BlockSizes(f, c.Blk(), n);
    DataArrives(c, s, Num(n), Block(f, c.Blk(), n));
    DataIsStored(c, s.(buf := Overwrite(s.buf, p)), f, have, n);
  }

  lemma EmptyWrite(content: seq<byte>, pos: nat)
    ensures WriteAt(content, pos, []) == content
  {
  }

  /** A number that is not acted upon ends the session, without an ERROR packet. */
  lemma RefusesNumber(c: Cfg, s: St, num: nat, payload: seq<byte>, expired: bool)
    requires c.Valid() && s.Fits() && s.stat == DataRx && !s.crashed && !s.WasError()
    requires num < WIRE && 4 + |payload| <= BUF_SIZE && !Accepts(s.stage, num)
    ensures var t := Step(c, s, FromClient(c, Data(num, payload), expired));
            t == s.(buf := t.buf, stat := Finish, code := 0, msg := WrongDataNumber)
  {
    hide Encode, Overwrite, Receive, Accepts, RxStage;
    DataArrives(c, s, num, payload);
  }

  /** An acknowledgement, new or old: it sets the stage, and either ends the
      session or moves it on to the next block. */
  lemma TakesAck(c: Cfg, s: St, num: nat, expired: bool)
    requires c.Valid() && s.Fits() && s.stat == AckRx && !s.crashed && !s.WasError() && num < WIRE
    ensures var t := Step(c, s, FromClient(c, Ack(num), expired));
            && t.buf[4..] == s.buf[4..]
            && (Accepts(s.stage, num) ==>
                  t == if s.last then s.(buf := t.buf, stat := Finish, stage := RxStage(s.stage, num))
                       else s.(buf := t.buf, stat := DataTx, stage := RxStage(s.stage, num) + 1))
            && (!Accepts(s.stage, num) ==>
                  t == s.(buf := t.buf, stat := Finish, code := 0, msg := WrongAckNumber))
  {
    hide Encode, Receive, Accepts, RxStage;
    AckArrives(c, s, num);
  }

  lemma SingleWindow(c: Cfg, n: nat)
    requires c.Window() == 1
    ensures WindowClosed(c, n)
  {
  }

  lemma AckIsSent(c: Cfg, s: St, ev: Ev)
    requires c.Valid() && s.Fits() && !s.crashed && s.stat == AckTx
    ensures var t := Step(c, s, ev);
            && t == s.(buf := t.buf, sent := s.sent + [Ack(Num(s.stage))], stage := s.stage + 1,
                       stat := if s.last then Finish else DataRx)
            && t.Fits()
  {
    hide Encode, Overwrite;
  }

  /** A packet from elsewhere leaves a waiting session as silence does, except for
      the bytes in its buffer. */
  lemma NothingForUs(c: Cfg, s: St, rx: Rx, expired: bool)
    requires c.Valid() && s.Fits() && !s.crashed && (s.stat == DataRx || s.stat == AckRx)
    requires rx.Nothing? || (rx.Packet? && !Relevant(c, s.stat, rx.from, Clip(rx.bytes)))
    ensures var t := Step(c, s, Ev(rx, expired));
            && t == s.(buf := t.buf, stat := if expired then Retransmit else s.stat)
            && t.buf == (if rx.Packet? then Overwrite(s.buf, Clip(rx.bytes)) else s.buf)
  {
    hide Encode, Overwrite, Clip, Relevant;
  }

  /** Without a timeout, no step enters `Retransmit`. */
  lemma CalmStep(c: Cfg, s: St, rx: Rx)
    requires c.Valid() && s.Fits() && s.stat != Retransmit
    ensures Step(c, s, Ev(rx, false)).stat != Retransmit
  {
    hide Encode, Overwrite, Receive, ConstructData;
    ReceiveKeeps(c, s, rx);
    ConstructKeeps(c, s);
  }

  /** With no retry allowed, the counter is still 0 wherever it matters. */
  ghost predicate Untried(s: St) {
    s.stat == ErrorAndStop || s.stat == Finish || s.retr == 0
  }

  lemma StepUntried(c: Cfg, s: St, ev: Ev)
    requires c.Valid() && s.Fits() && c.limit == 0 && Untried(s)
    ensures Untried(Step(c, s, ev))
  {
    hide Encode, Overwrite, Receive, ConstructData;
    ReceiveKeeps(c, s, ev.rx);
    ConstructKeeps(c, s);
  }

  lemma NotFromClient(c: Cfg, stat: State, from: Addr, p: seq<byte>)
    requires from != c.client
    ensures !Relevant(c, stat, from, p)
  {
  }
}
