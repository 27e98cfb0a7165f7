/** Write sessions over all runs, their own retransmissions included: a lock-step client
    never makes the session end in an exception, and exactly when the network can break
    it off. */
module WriteRetries {
  import opened Octets
  import opened PacketBuffer
  import opened Requests
  import opened DataFile
  import opened SessionModel
  import opened SessionLaws
  import opened BlockSteps
  import opened Channels
  import opened Exceptions
  import opened WriteProtocol
  import opened WriteRuns

  // ------------------------------------------------------------ no exception

  /** No packet under way to the session has number 0 before the client has got to
      block 65536; the client gets there only by the acknowledgement 65535, and once
      that is sent the stage is behind the wrap. */
  ghost predicate Seekable(c: Cfg, w: Sys) {
    && w.srv.Fits() && !w.srv.crashed && Directed(c, w.srv)
    && (forall i :: 0 <= i < |w.up| ==> WellNumbered(w.up[i], w.at))
    && (w.at >= WIRE || Ack(WIRE - 1) in w.down ==> BehindWrap(w.srv))
  }

  predicate WellNumbered(p: Pkt, at: nat) {
    p.Data? && p.num < WIRE && (p.num == 0 ==> at >= WIRE)
  }

  predicate BehindWrap(s: St) {
    s.stage >= WIRE && s.stat != NeedInit && s.stat != AckOptions
  }

  /** The stage does not go back over a wrap. */
  lemma WrapKept(c: Cfg, s: St, ev: Ev)
    requires c.Valid() && c.opt.req == SrvReq.Write && s.Fits() && Directed(c, s) && BehindWrap(s)
    ensures BehindWrap(Step(c, s, ev))
  {
    hide Encode, Overwrite, Receive, Clip;
    ReceiveEpoch(c, s, ev.rx);
    ReceiveKeeps(c, s, ev.rx);
  }

  lemma ReceiveEpoch(c: Cfg, s: St, rx: Rx)
    requires s.Fits() && s.stage >= WIRE
    ensures Receive(c, s, rx).0.stage >= WIRE
  {
    hide Overwrite, Clip, WriteAt, U16;
    assert s.stage - Num(s.stage) >= WIRE;
  }

  /** Only the acknowledgement of a block with number 65535 is numbered so. */
  lemma WrapAckSent(c: Cfg, s: St, ev: Ev)
    requires c.Valid() && c.opt.req == SrvReq.Write && s.Fits() && !s.crashed && Directed(c, s)
    ensures var t := Step(c, s, ev);
            && (t.sent == s.sent || (|t.sent| == |s.sent| + 1 && t.sent[..|s.sent|] == s.sent))
            && (t.sent != s.sent && t.sent[|s.sent|] == Ack(WIRE - 1) ==> BehindWrap(t))
  {
    hide Step, ErrsLawfully, MovesLawfully;
    StepLawful(c, s, ev);
    if s.stat == AckTx {
      AckIsSent(c, s, ev);
    } else {
      OtherSent(c, s, ev);
    }
  }

  lemma OtherSent(c: Cfg, s: St, ev: Ev)
    requires c.Valid() && s.Fits() && !s.crashed && s.stat != AckTx && s.stat != DataTx
    ensures var t := Step(c, s, ev);
            t.sent != s.sent ==> |t.sent| == |s.sent| + 1 && !t.sent[|s.sent|].Ack?
  {
    hide Encode, Overwrite, Receive;
    ReceiveKeeps(c, s, ev.rx);
  }

  lemma ServerSeeks(c: Cfg, w: Sys, ev: Ev, up: seq<Pkt>)
    requires Setting(c) && Seekable(c, w) && !Unseekable(c, w.srv, ev)
    requires forall i :: 0 <= i < |up| ==> up[i] in w.up
    ensures Seekable(c, ServerStep(c, w, ev, up))
  {
    hide Step, Unseekable, Directed;
    var t := Step(c, w.srv, ev);
    StepDirected(c, w.srv, ev);
    CrashExactly(c, w.srv, ev);
    WrapAckSent(c, w.srv, ev);
    if BehindWrap(w.srv) {
      WrapKept(c, w.srv, ev);
    }
    if t.sent != w.srv.sent {
      assert News(w.srv.sent, t.sent) == [t.sent[|w.srv.sent|]];
    }
  }

  lemma DeliverySeeks(c: Cfg, w: Sys, expired: bool)
    requires Setting(c) && Seekable(c, w) && w.srv.stat == DataRx && w.up != []
    ensures !Unseekable(c, w.srv, FromClient(c, w.up[0], expired))
  {
    hide Clip, Directed, Encode, U16;
    var p := w.up[0];
    assert WellNumbered(p, w.at);
    ClippedHeader(p.num, p.payload);
  }

  lemma ClippedHeader(num: nat, payload: seq<byte>)
    requires num < WIRE
    ensures var p := Clip(Encode(Data(num, payload)));
            |p| >= 4 && U16(p[2], p[3]) == num
  {
    HeaderReads(3, num, payload);
  }

  lemma ClientSeeks(c: Cfg, f: seq<byte>, w: Sys, ev: Event)
    requires Setting(c) && Seekable(c, w) && !ev.Server? && !ev.Stranger?
    ensures Seekable(c, Next(c, f, w, ev))
  {
    hide Directed, FinalBlock, Block;
    match ev
    case ClientTakes =>
      if w.down != [] {
        assert w.down[0] in w.down;
        assert forall i :: 0 <= i < |w.down[1..]| ==> w.down[1..][i] in w.down;
      }
    case LoseDown(i) => NotMore(w.down, i, Ack(WIRE - 1));
    case TwiceDown(i) => NotMore(w.down, i, Ack(WIRE - 1));
    case _ =>
  }

  lemma NotMore<T>(q: seq<T>, i: nat, x: T)
    ensures x in Lose(q, i) ==> x in q
    ensures x in Twice(q, i) ==> x in q
  {
  }

  lemma NextSeeks(c: Cfg, f: seq<byte>, w: Sys, ev: Event)
    requires Setting(c) && Seekable(c, w)
    ensures Seekable(c, Next(c, f, w, ev))
  {
    hide ServerStep, Seekable, Unseekable, FromClient;
    SeekableFits(c, w);
    if ev.Server? {
      if ev.deliver && w.up != [] && w.srv.stat == DataRx {
        DeliverySeeks(c, w, ev.expired);
        ServerSeeks(c, w, FromClient(c, w.up[0], ev.expired), w.up[1..]);
      } else {
        SilenceSeeks(c, w.srv, Ev(Nothing, ev.expired));
        ServerSeeks(c, w, Ev(Nothing, ev.expired), w.up);
      }
    } else if ev.Stranger? {
      if ev.from != c.client {
        SilenceSeeks(c, w.srv, Ev(Packet(ev.from, ev.bytes), ev.expired));
        ServerSeeks(c, w, Ev(Packet(ev.from, ev.bytes), ev.expired), w.up);
      }
    } else {
      ClientSeeks(c, f, w, ev);
    }
  }

  lemma SeekableFits(c: Cfg, w: Sys)
    requires Seekable(c, w)
    ensures w.srv.Fits()
  {
  }

  lemma SilenceSeeks(c: Cfg, s: St, ev: Ev)
    requires ev.rx.Packet? ==> ev.rx.from != c.client
    ensures !Unseekable(c, s, ev)
  {
  }

  lemma {:induction false} SeekableRun(c: Cfg, f: seq<byte>, evs: seq<Event>)
    requires Setting(c)
    ensures Seekable(c, Run(c, f, evs))
  {
    hide Next, Seekable;
    if evs == [] {
      StartSeekable(c);
    } else {
      SeekableRun(c, f, evs[..|evs| - 1]);
      NextSeeks(c, f, Run(c, f, evs[..|evs| - 1]), evs[|evs| - 1]);
    }
  }

  lemma StartSeekable(c: Cfg)
    requires Setting(c)
    ensures Seekable(c, Init())
  {
  }

  /** Whatever the network does and however often the session retransmits, a lock-step
      client never makes it end in an exception. */
  lemma LockStepNeverCrashes(c: Cfg, f: seq<byte>, evs: seq<Event>)
    requires Setting(c)
    ensures !Run(c, f, evs).srv.crashed
  {
    hide RunFrom;
    SeekableRun(c, f, evs);
  }

  // -------------------------------------------------- a file of a single block

  /** All that is under way is block 1, which is acceptable at every stage. */
  ghost predicate Lone(c: Cfg, f: seq<byte>, w: Sys) {
    && Seekable(c, w) && !w.srv.WasError()
    && (forall i :: 0 <= i < |w.up| ==> w.up[i] == DataPkt(f, c.Blk(), 1))
  }

  /** A step that takes nothing in registers no error. */
  lemma NoNewError(c: Cfg, s: St, ev: Ev)
    requires c.Valid() && c.opening.Opened? && s.Fits() && !s.crashed && !s.WasError() && s.stat != DataTx
    requires ev.rx.Nothing? || (ev.rx.Packet? && ev.rx.from != c.client)
    ensures !Step(c, s, ev).WasError()
  {
    hide Step, SendsLawfully, MovesLawfully, Relevant, Clip;
    StepLawful(c, s, ev);
    if s.stat == NeedInit {
      OpensWell(c, s, ev);
    } else if s.stat == DataRx || s.stat == AckRx {
      if ev.rx.Packet? {
        NotFromClient(c, s.stat, ev.rx.from, Clip(ev.rx.bytes));
      }
      NothingForUs(c, s, ev.rx, ev.expired);
    }
  }

  lemma OpensWell(c: Cfg, s: St, ev: Ev)
    requires c.Valid() && c.opening.Opened? && s.Fits() && !s.crashed && !s.WasError() && s.stat == NeedInit
    ensures !Step(c, s, ev).WasError()
  {
    hide Encode, Overwrite;
  }

  /** Data with an acceptable number, other than 0 before the first wrap, is taken. */
  lemma TakesData(c: Cfg, s: St, num: nat, payload: seq<byte>, expired: bool)
    requires Setting(c) && s.Fits() && s.stat == DataRx && !s.crashed && s.file.req == SrvReq.Write
    requires num < WIRE && 4 + |payload| <= BUF_SIZE && Accepts(s.stage, num) && RxStage(s.stage, num) >= 1
    ensures var t := Step(c, s, FromClient(c, Data(num, payload), expired));
            && t == s.(buf := t.buf, file := s.file.(content := t.file.content), stage := RxStage(s.stage, num),
                       last := |payload| != c.Blk(), stat := AckTx)
            && t.Fits()
  {
    hide Encode, Overwrite, Receive, Accepts, RxStage, WriteAt, WindowClosed;
    DataArrives(c, s, num, payload);
    SingleWindow(c, RxStage(s.stage, num));
    Scale(0, RxStage(s.stage, num) - 1, c.Blk());
  }

  lemma LoneTaken(c: Cfg, f: seq<byte>, w: Sys, expired: bool)
    requires Setting(c) && Lone(c, f, w) && w.srv.stat == DataRx && w.up != []
    ensures !Step(c, w.srv, FromClient(c, w.up[0], expired)).WasError()
  {
    hide Step, Accepts, RxStage, Block, FinalBlock, Encode;
    OneAccepted(w.srv.stage);
    TakesData(c, w.srv, 1, Block(f, c.Blk(), 1), expired);
  }

  lemma OneAccepted(stage: nat)
    ensures Accepts(stage, 1) && RxStage(stage, 1) >= 1
  {
  }

  lemma LoneNext(c: Cfg, f: seq<byte>, w: Sys, ev: Event)
    requires Setting(c) && FinalBlock(c, f) == 1 && Lone(c, f, w)
    ensures Lone(c, f, Next(c, f, w, ev))
  {
    hide Step, DataPkt, Seekable, FromClient;
    NextSeeks(c, f, w, ev);
    SeekableFits(c, w);
    LoneWhere(c, f, w);
    if ev.Server? {
      if ev.deliver && w.up != [] && w.srv.stat == DataRx {
        LoneTaken(c, f, w, ev.expired);
      } else {
        NoNewError(c, w.srv, Ev(Nothing, ev.expired));
      }
    } else if ev.Stranger? {
      if ev.from != c.client {
        NoNewError(c, w.srv, Ev(Packet(ev.from, ev.bytes), ev.expired));
      }
    }
  }

  lemma LoneWhere(c: Cfg, f: seq<byte>, w: Sys)
    requires Setting(c) && Lone(c, f, w)
    ensures !w.srv.crashed && w.srv.stat != DataTx && w.srv.stat != AckRx
    ensures w.srv.stat != NeedInit ==> w.srv.file.req == SrvReq.Write
  {
  }

  lemma {:induction false} LoneRun(c: Cfg, f: seq<byte>, evs: seq<Event>)
    requires Setting(c) && FinalBlock(c, f) == 1
    ensures Lone(c, f, Run(c, f, evs))
  {
    hide Next, Lone, FinalBlock;
    if evs == [] {
      StartLone(c, f);
    } else {
      LoneRun(c, f, evs[..|evs| - 1]);
      LoneNext(c, f, Run(c, f, evs[..|evs| - 1]), evs[|evs| - 1]);
    }
  }

  lemma StartLone(c: Cfg, f: seq<byte>)
    requires Setting(c)
    ensures Lone(c, f, Init())
  {
  }

  // -------------------------------------------- few blocks, or few retries

  /** The requests and files for which the numbers cannot run apart too far: no wrap is
      ever reached, and there are at most three blocks or at most one retry. */
  predicate Close(c: Cfg, f: seq<byte>)
    requires c.Blk() > 0
  {
    FinalBlock(c, f) + c.limit < WIRE && (FinalBlock(c, f) <= 3 || c.limit <= 1)
  }

  /** Blocks from `lo` to `hi`, in order. */
  ghost predicate Between(f: seq<byte>, blk: nat, q: seq<Pkt>, lo: nat, hi: nat) {
    && (forall i :: 0 <= i < |q| ==> IsBlock(f, blk, q[i]) && lo <= q[i].num <= hi)
    && (forall i, j :: 0 <= i < j < |q| ==> IsBlock(f, blk, q[i]) && IsBlock(f, blk, q[j]) && q[i].num <= q[j].num)
  }

  ghost predicate IsBlock(f: seq<byte>, blk: nat, p: Pkt) {
    p.Data? && 1 <= p.num < WIRE && p == DataPkt(f, blk, p.num)
  }

  /** Acknowledgements up to `m`; the option acknowledgement counts as the first. */
  predicate AckedTo(q: seq<Pkt>, m: int) {
    forall i :: 0 <= i < |q| ==> q[i].Oack? || (q[i].Ack? && q[i].num <= m)
  }

  lemma BetweenLess(f: seq<byte>, blk: nat, q: seq<Pkt>, lo: nat, hi: nat, i: nat)
    requires Between(f, blk, q, lo, hi)
    ensures Between(f, blk, Lose(q, i), lo, hi)
    ensures Between(f, blk, Twice(q, i), lo, hi)
  {
    hide IsBlock, Lose, Twice;
    forall j | 0 <= j < |Lose(q, i)| {
      LoseFrom(q, i, j);
    }
    forall j | 0 <= j < |Twice(q, i)| {
      TwiceFrom(q, i, j);
    }
  }

  lemma BetweenMore(f: seq<byte>, blk: nat, q: seq<Pkt>, lo: nat, hi: nat, n: nat)
    requires Between(f, blk, q, lo, hi) && 1 <= n < WIRE && lo <= n && hi <= n
    ensures Between(f, blk, q + [DataPkt(f, blk, n)], lo, n)
  {
    hide IsBlock;
    assert IsBlock(f, blk, DataPkt(f, blk, n)) by {
      BlockNumbered(f, blk, n);
    }
  }

  lemma BlockNumbered(f: seq<byte>, blk: nat, n: nat)
    requires 1 <= n < WIRE
    ensures IsBlock(f, blk, DataPkt(f, blk, n)) && DataPkt(f, blk, n).num == n
  {
  }

  lemma BetweenTake(f: seq<byte>, blk: nat, q: seq<Pkt>, lo: nat, hi: nat)
    requires Between(f, blk, q, lo, hi) && q != []
    ensures IsBlock(f, blk, q[0]) && lo <= q[0].num <= hi
    ensures Between(f, blk, q[1..], q[0].num, hi)
  {
    hide IsBlock;
  }

  /** How far client and session can be from block `g`, the last one taken, with every
      retry counted. */
  ghost predicate Within(c: Cfg, f: seq<byte>, w: Sys, g: nat)
    requires c.Blk() > 0
  {
    var n, r := FinalBlock(c, f), w.srv.retr;
    && w.srv.file.req == SrvReq.Write && r <= c.limit && g <= n
    && g <= w.at <= g + 1 + r && w.at <= n + 1
    && Between(f, c.Blk(), w.up, g, Min(w.at, n)) && AckedTo(w.down, g + r)
  }

  /** As long as nothing has been taken, the client is not ahead of the session. */
  ghost predicate Untaken(w: Sys) {
    w.at <= w.srv.stage && AckedTo(w.down, w.srv.stage - 1) && (w.down != [] ==> w.srv.stage >= 1)
  }

  ghost predicate Loose(c: Cfg, f: seq<byte>, w: Sys, g: nat)
    requires Setting(c)
  {
    var s, n := w.srv, FinalBlock(c, f);
    && s.Fits() && !s.crashed && !s.WasError()
    && match s.stat
       case NeedInit => g == 0 && s == Start() && w == Init()
       case AckOptions =>
         && g == 0 && w == Init().(srv := s) && s.stage == 0 && s.retr == 0 && !s.last && s.sent == []
         && s.file.req == SrvReq.Write
       case DataRx =>
         && Within(c, f, w, g) && g < n && !s.last && g + 1 <= s.stage <= g + 1 + s.retr
         && (g == 0 ==> Untaken(w))
       case Retransmit =>
         && Within(c, f, w, g) && g < n && !s.last && g + 1 <= s.stage <= g + 1 + s.retr
         && (g == 0 ==> Untaken(w))
       case AckTx =>
         && Within(c, f, w, g) && (s.last <==> g == n) && g <= s.stage <= g + s.retr
         && (g == 0 ==> Untaken(w))
       case ErrorAndStop => true
       case Finish => true
       case _ => false
  }

  lemma AckedMore(q: seq<Pkt>, m: int, k: nat)
    requires AckedTo(q, m)
    ensures forall m' :: m <= m' ==> AckedTo(q, m')
    ensures k <= m ==> AckedTo(q + [Ack(k)], m)
  {
  }

  lemma AckedLess(q: seq<Pkt>, m: int, i: nat)
    requires AckedTo(q, m)
    ensures AckedTo(Lose(q, i), m) && AckedTo(Twice(q, i), m) && (q != [] ==> AckedTo(q[1..], m))
  {
  }

  /** A block that arrives is at most one ahead of the stage. */
  lemma CloseEnough(c: Cfg, f: seq<byte>, w: Sys, g: nat)
    requires Setting(c) && Close(c, f) && Loose(c, f, w, g) && w.srv.stat == DataRx && w.up != []
    ensures var b := w.up[0];
            && IsBlock(f, c.Blk(), b) && g <= b.num <= FinalBlock(c, f) && b.num <= w.at
            && Accepts(w.srv.stage, b.num) && RxStage(w.srv.stage, b.num) == b.num
            && Between(f, c.Blk(), w.up[1..], b.num, Min(w.at, FinalBlock(c, f)))
  {
    hide Between, IsBlock, FinalBlock, AckedTo;
    BetweenTake(f, c.Blk(), w.up, g, Min(w.at, FinalBlock(c, f)));
  }

  lemma LooseTaken(c: Cfg, f: seq<byte>, w: Sys, g: nat, expired: bool) returns (g': nat)
    requires Setting(c) && Close(c, f) && Loose(c, f, w, g) && w.srv.stat == DataRx && w.up != []
    ensures Loose(c, f, ServerStep(c, w, FromClient(c, w.up[0], expired), w.up[1..]), g')
  {
    hide Step, Between, FinalBlock, AckedTo, Accepts, RxStage, Block, Encode;
    CloseEnough(c, f, w, g);
    g' := w.up[0].num;
    FinalIs(c, f);
    BlockSizes(f, c.Blk(), g');
    TakesData(c, w.srv, g', Block(f, c.Blk(), g'), expired);
    NewsOf(w.srv.sent, Ack(0), w.down);
    AckedMore(w.down, g + w.srv.retr, 0);
  }

  lemma LooseWaits(c: Cfg, f: seq<byte>, w: Sys, g: nat, rx: Rx, expired: bool)
    requires Setting(c) && Close(c, f) && Loose(c, f, w, g) && w.srv.stat == DataRx
    requires rx.Nothing? || (rx.Packet? && rx.from != c.client)
    ensures Loose(c, f, ServerStep(c, w, Ev(rx, expired), w.up), g)
  {
    hide Step, Between, FinalBlock, AckedTo, Relevant, Clip;
    if rx.Packet? {
      NotFromClient(c, w.srv.stat, rx.from, Clip(rx.bytes));
    }
    NothingForUs(c, w.srv, rx, expired);
    NewsOf(w.srv.sent, Ack(0), w.down);
  }

  lemma LooseAcks(c: Cfg, f: seq<byte>, w: Sys, g: nat, ev: Ev)
    requires Setting(c) && Close(c, f) && Loose(c, f, w, g) && w.srv.stat == AckTx
    ensures Loose(c, f, ServerStep(c, w, ev, w.up), g)
  {
    hide Step, Between, FinalBlock, AckedTo;
    var s := w.srv;
    AckIsSent(c, s, ev);
    NewsOf(s.sent, Ack(Num(s.stage)), w.down);
    AckedMore(w.down, g + s.retr, s.stage);
    if g == 0 {
      AckedMore(w.down, s.stage - 1, s.stage);
      AckedMore(w.down, s.stage, s.stage);
    }
  }

  lemma LooseRetries(c: Cfg, f: seq<byte>, w: Sys, g: nat, ev: Ev)
    requires Setting(c) && Close(c, f) && Loose(c, f, w, g) && w.srv.stat == Retransmit
    ensures Loose(c, f, ServerStep(c, w, ev, w.up), g)
  {
    hide Between, FinalBlock, AckedTo, Encode, Overwrite;
    NewsOf(w.srv.sent, Ack(0), w.down);
    AckedMore(w.down, g + w.srv.retr, 0);
  }

  lemma LooseStarts(c: Cfg, f: seq<byte>, w: Sys, g: nat, ev: Ev)
    requires Setting(c) && Close(c, f) && Loose(c, f, w, g)
    requires w.srv.stat == NeedInit || w.srv.stat == AckOptions || w.srv.stat == ErrorAndStop || w.srv.stat == Finish
    ensures Loose(c, f, ServerStep(c, w, ev, w.up), g)
  {
    hide FinalBlock, Encode, Overwrite;
    NewsOf(w.srv.sent, Oack(c.opt), w.down);
    NoneBetween(f, c.Blk());
  }

  lemma NoneBetween(f: seq<byte>, blk: nat)
    ensures Between(f, blk, [], 0, 0)
  {
  }

  /** The client takes an acknowledgement: it was sent, so the client stays within
      reach. */
  lemma LooseTakes(c: Cfg, f: seq<byte>, w: Sys, g: nat)
    requires Setting(c) && Close(c, f) && Loose(c, f, w, g)
    requires w.srv.stat == DataRx || w.srv.stat == Retransmit || w.srv.stat == AckTx
    ensures Loose(c, f, ClientStep(c, f, w), g)
  {
    hide Between, FinalBlock, DataPkt, Lose, Twice;
    if w.down != [] {
      var n, p := FinalBlock(c, f), w.down[0];
      AckedLess(w.down, g + w.srv.retr, 0);
      if g == 0 {
        AckedLess(w.down, w.srv.stage - 1, 0);
      }
      if w.at <= n && Wanted(w.at, p) {
        if w.at < n {
          BetweenMore(f, c.Blk(), w.up, g, w.at, w.at + 1);
        } else {
          assert w.up + [] == w.up;
        }
      }
    }
  }

  lemma LoosePeers(c: Cfg, f: seq<byte>, w: Sys, g: nat, ev: Event)
    requires Setting(c) && Close(c, f) && Loose(c, f, w, g) && !ev.Server? && !ev.Stranger?
    requires w.srv.stat == DataRx || w.srv.stat == Retransmit || w.srv.stat == AckTx
    ensures Loose(c, f, Next(c, f, w, ev), g)
  {
    hide Between, FinalBlock, DataPkt, AckedTo, ClientStep, Lose, Twice;
    var n := FinalBlock(c, f);
    match ev
    case ClientTakes => LooseTakes(c, f, w, g);
    case ClientResends =>
      if 1 <= w.at <= n {
        BetweenMore(f, c.Blk(), w.up, g, w.at, w.at);
      }
    case LoseUp(i) => BetweenLess(f, c.Blk(), w.up, g, Min(w.at, n), i);
    case TwiceUp(i) => BetweenLess(f, c.Blk(), w.up, g, Min(w.at, n), i);
    case LoseDown(i) =>
      AckedLess(w.down, g + w.srv.retr, i);
      LoosesUntaken(w, g, i);
    case TwiceDown(i) =>
      AckedLess(w.down, g + w.srv.retr, i);
      LoosesUntaken(w, g, i);
  }

  lemma LoosesUntaken(w: Sys, g: nat, i: nat)
    ensures Untaken(w) ==> Untaken(w.(down := Lose(w.down, i))) && Untaken(w.(down := Twice(w.down, i)))
  {
    if Untaken(w) {
      AckedLess(w.down, w.srv.stage - 1, i);
    }
  }

  lemma LooseNext(c: Cfg, f: seq<byte>, w: Sys, g: nat, ev: Event) returns (g': nat)
    requires Setting(c) && Close(c, f) && Loose(c, f, w, g)
    ensures Loose(c, f, Next(c, f, w, ev), g')
  {
    hide ServerStep, Within, Untaken, Close, ClientStep, DataPkt, Lose, Twice, FinalBlock;
    g' := g;
    if ev.Server? && ev.deliver && w.up != [] && w.srv.stat == DataRx {
      g' := LooseTaken(c, f, w, g, ev.expired);
    } else if ev.Server? || (ev.Stranger? && ev.from != c.client) {
      var rx := if ev.Server? then Nothing else Packet(ev.from, ev.bytes);
      if w.srv.stat == DataRx {
        LooseWaits(c, f, w, g, rx, ev.expired);
      } else if w.srv.stat == AckTx {
        LooseAcks(c, f, w, g, Ev(rx, ev.expired));
      } else if w.srv.stat == Retransmit {
        LooseRetries(c, f, w, g, Ev(rx, ev.expired));
      } else {
        LooseStarts(c, f, w, g, Ev(rx, ev.expired));
      }
    } else if !ev.Stranger? {
      if w.srv.stat == DataRx || w.srv.stat == Retransmit || w.srv.stat == AckTx {
        LoosePeers(c, f, w, g, ev);
      } else if w.srv.stat == NeedInit || w.srv.stat == AckOptions {
        NobodyYet(c, f, w, ev);
      } else {
        ClientLeavesServer(c, f, w);
      }
    }
  }

  lemma {:induction false} LooseRun(c: Cfg, f: seq<byte>, evs: seq<Event>) returns (g: nat)
    requires Setting(c) && Close(c, f)
    ensures Loose(c, f, Run(c, f, evs), g)
  {
    hide Next, Loose, Close;
    if evs == [] {
      g := 0;
      StartLoose(c, f);
    } else {
      g := LooseRun(c, f, evs[..|evs| - 1]);
      g := LooseNext(c, f, Run(c, f, evs[..|evs| - 1]), g, evs[|evs| - 1]);
    }
  }

  lemma StartLoose(c: Cfg, f: seq<byte>)
    requires Setting(c)
    ensures Loose(c, f, Init(), 0)
  {
  }

  // ------------------------------------------------------- how it is broken off

  /** Some run leads from `w` to `t`. */
  ghost predicate Leads(c: Cfg, f: seq<byte>, w: Sys, t: Sys)
    requires Setting(c) && w.srv.Fits()
  {
    exists evs: seq<Event> :: RunFrom(c, f, w, evs) == t
  }

  lemma LeadsOn(c: Cfg, f: seq<byte>, w: Sys, t: Sys, ev: Event)
    requires Setting(c) && w.srv.Fits() && t.srv.Fits() && Leads(c, f, w, t)
    ensures Leads(c, f, w, Next(c, f, t, ev))
  {
    hide Next, RunFrom;
    var evs :| RunFrom(c, f, w, evs) == t;
    RunTwo(c, f, w, evs, [ev]);
    RunOne(c, f, t, ev);
    assert RunFrom(c, f, w, evs + [ev]) == Next(c, f, t, ev);
  }

  /** A session in the middle of a transfer. */
  ghost predicate Receiving(w: Sys) {
    && w.srv.Fits() && w.srv.stat == DataRx && !w.srv.crashed && !w.srv.WasError() && !w.srv.last
    && w.srv.file.req == SrvReq.Write
  }

  /** The session after a timeout and a retransmission. */
  function AfterResend(c: Cfg, f: seq<byte>, w: Sys): (r: Sys)
    requires Setting(c) && w.srv.Fits()
    ensures r.srv.Fits()
  {
    Next(c, f, Next(c, f, Next(c, f, w, TIMEOUT), TURN), TURN)
  }

  /** It has acknowledged the block it waits for and waits for the next. */
  lemma ResendMoves(c: Cfg, f: seq<byte>, w: Sys)
    requires Setting(c) && Receiving(w) && w.srv.retr < c.limit
    ensures var t := AfterResend(c, f, w);
            && Receiving(t) && t.srv.stage == w.srv.stage + 1 && t.srv.retr == w.srv.retr + 1
            && t.at == w.at && t.up == w.up && t.down == w.down + [Ack(Num(w.srv.stage))]
  {
    hide Step, DataPkt, Encode;
    var s := w.srv;
    NothingForUs(c, s, Nothing, true);
    NewsOf(s.sent, Ack(0), w.down);
    var w1 := Next(c, f, w, TIMEOUT);
    RetryStep(c, w1.srv);
    NewsOf(w1.srv.sent, Ack(0), w1.down);
    var w2 := Next(c, f, w1, TURN);
    AckIsSent(c, w2.srv, Ev(Nothing, false));
    NewsOf(w2.srv.sent, Ack(Num(w2.srv.stage)), w2.down);
  }

  lemma RetryStep(c: Cfg, s: St)
    requires Setting(c) && s.Fits() && s.stat == Retransmit && !s.crashed && s.retr < c.limit
    ensures Step(c, s, Ev(Nothing, false)) == s.(stat := AckTx, retr := s.retr + 1)
  {
  }

  lemma LeadsResend(c: Cfg, f: seq<byte>, w: Sys, t: Sys)
    requires Setting(c) && w.srv.Fits() && t.srv.Fits() && Leads(c, f, w, t)
    ensures Leads(c, f, w, AfterResend(c, f, t))
  {
    hide Next, Leads;
    LeadsOn(c, f, w, t, TIMEOUT);
    LeadsOn(c, f, w, Next(c, f, t, TIMEOUT), TURN);
    LeadsOn(c, f, w, Next(c, f, Next(c, f, t, TIMEOUT), TURN), TURN);
  }

  /** A number that is not acceptable breaks the session off. */
  lemma BlockRefused(c: Cfg, f: seq<byte>, w: Sys, n: nat)
    requires Setting(c) && Receiving(w) && 1 <= n <= FinalBlock(c, f)
    requires w.up != [] && w.up[0] == DataPkt(f, c.Blk(), n) && !Accepts(w.srv.stage, Num(n))
    ensures Next(c, f, w, DELIVERY).srv.WasError()
  {
    hide Step, Accepts, Block;
    BlockSizes(f, c.Blk(), n);
    RefusesNumber(c, w.srv, Num(n), Block(f, c.Blk(), n), false);
  }

  // ---- by a wrap of the numbers

  lemma {:induction false} ResendTimes(c: Cfg, f: seq<byte>, w: Sys, k: nat) returns (t: Sys)
    requires Setting(c) && Receiving(w) && w.srv.retr + k <= c.limit
    ensures Leads(c, f, w, t) && Receiving(t)
    ensures t.srv.stage == w.srv.stage + k && t.srv.retr == w.srv.retr + k && t.up == w.up
  {
    hide Next, Leads, Receiving;
    ReceivingFits(w);
    if k == 0 {
      t := w;
      LeadsHere(c, f, w);
    } else {
      var v := ResendTimes(c, f, w, k - 1);
      ReceivingFits(v);
      ResendMoves(c, f, v);
      LeadsResend(c, f, w, v);
      t := AfterResend(c, f, v);
    }
  }

  lemma ReceivingFits(w: Sys)
    requires Receiving(w)
    ensures w.srv.Fits()
  {
  }

  lemma LeadsHere(c: Cfg, f: seq<byte>, w: Sys)
    requires Setting(c) && w.srv.Fits()
    ensures Leads(c, f, w, w)
  {
    assert RunFrom(c, f, w, []) == w;
  }

  lemma LeadsThrough(c: Cfg, f: seq<byte>, w: Sys, v: Sys, t: Sys)
    requires Setting(c) && w.srv.Fits() && v.srv.Fits() && Leads(c, f, w, v) && Leads(c, f, v, t)
    ensures Leads(c, f, w, t)
  {
    hide RunFrom;
    var a :| RunFrom(c, f, w, a) == v;
    var b :| RunFrom(c, f, v, b) == t;
    RunTwo(c, f, w, a, b);
    assert RunFrom(c, f, w, a + b) == t;
  }

  /** The last block is under way, and no retry has been made. */
  lemma LastBlockSent(c: Cfg, f: seq<byte>) returns (w: Sys)
    requires Setting(c)
    ensures Leads(c, f, Init(), w) && Receiving(w) && w.srv.retr == 0
    ensures w.srv.stage == FinalBlock(c, f) && w.up == [DataPkt(f, c.Blk(), FinalBlock(c, f))]
  {
    hide Next, RunFrom, FinalBlock, DataPkt, NoResend;
    var n := FinalBlock(c, f);
    var evs := Hello(c) + Rounds(n - 1);
    RoundsStore(c, f, n - 1);
    w := Run(c, f, evs);
    HelloCalm(c, n - 1);
    CalmNeverResends(c, f, evs);
    InvariantHolds(c, f, evs);
    NoRetryYet(c, f, w);
    assert RunFrom(c, f, Init(), evs) == w;
  }

  lemma {:induction false} HelloCalm(c: Cfg, n: nat)
    ensures forall i :: 0 <= i < |Hello(c) + Rounds(n)| ==> Calm((Hello(c) + Rounds(n))[i])
  {
    RoundsCalm(n);
  }

  lemma NoRetryYet(c: Cfg, f: seq<byte>, w: Sys)
    requires Setting(c) && Inv(c, f, w) && w.srv.stat == DataRx
    ensures w.srv.retr == 0
  {
    hide Linked, Prefix;
  }

  /** With enough retries to carry the stage to a wrap, the last block breaks the
      session off there. */
  lemma BreaksAtWrap(c: Cfg, f: seq<byte>) returns (t: Sys)
    requires Setting(c) && 2 <= FinalBlock(c, f) < WIRE && FinalBlock(c, f) + c.limit >= WIRE
    ensures Leads(c, f, Init(), t) && t.srv.WasError()
  {
    hide Next, Leads, Receiving, FinalBlock, DataPkt;
    var n := FinalBlock(c, f);
    var w := LastBlockSent(c, f);
    ReceivingFits(w);
    var v := ResendTimes(c, f, w, WIRE - n);
    ReceivingFits(v);
    LeadsThrough(c, f, Init(), w, v);
    WrapRefuses(n);
    BlockRefused(c, f, v, n);
    LeadsOn(c, f, Init(), v, DELIVERY);
    t := Next(c, f, v, DELIVERY);
  }

  lemma WrapRefuses(n: nat)
    requires 2 <= n < WIRE
    ensures !Accepts(WIRE, Num(n))
  {
  }

  // ---- by two retries

  /** The client takes the acknowledgement of its block and sends the next. */
  lemma ClientGoesOn(c: Cfg, f: seq<byte>, w: Sys)
    requires Setting(c) && w.srv.Fits() && 1 <= w.at < FinalBlock(c, f) && w.down == [Ack(Num(w.at))]
    ensures Next(c, f, w, ClientTakes) == w.(at := w.at + 1, up := w.up + [DataPkt(f, c.Blk(), w.at + 1)], down := [])
  {
    hide DataPkt, FinalBlock;
  }

  /** The session takes a full block of the same epoch, or an earlier one of it, and
      acknowledges it. */
  lemma TakesAndAcks(c: Cfg, f: seq<byte>, w: Sys, n: nat)
    requires Setting(c) && Receiving(w) && 1 <= n < FinalBlock(c, f)
    requires w.up != [] && w.up[0] == DataPkt(f, c.Blk(), n)
    requires Accepts(w.srv.stage, Num(n)) && RxStage(w.srv.stage, Num(n)) == n
    ensures var t := Next(c, f, Next(c, f, w, DELIVERY), TURN);
            && Receiving(t) && t.srv.stage == n + 1 && t.srv.retr == w.srv.retr
            && t.at == w.at && t.up == w.up[1..] && t.down == w.down + [Ack(Num(n))]
  {
    hide Step, Accepts, RxStage, Block, Encode;
    BlockSizes(f, c.Blk(), n);
    TakesData(c, w.srv, Num(n), Block(f, c.Blk(), n), false);
    NewsOf(w.srv.sent, Ack(0), w.down);
    var w1 := Next(c, f, w, DELIVERY);
    AckIsSent(c, w1.srv, Ev(Nothing, false));
    NewsOf(w1.srv.sent, Ack(Num(n)), w1.down);
  }

  /** One block further: the session retransmits, and the client believes it. */
  lemma OneAhead(c: Cfg, f: seq<byte>, w: Sys) returns (t: Sys)
    requires Setting(c) && Receiving(w) && w.srv.retr < c.limit && w.down == []
    requires w.at == w.srv.stage && 1 <= w.at < FinalBlock(c, f)
    ensures Leads(c, f, w, t) && Receiving(t) && t.down == [] && t.srv.retr == w.srv.retr + 1
    ensures t.at == w.at + 1 && t.srv.stage == w.srv.stage + 1 && t.up == w.up + [DataPkt(f, c.Blk(), t.at)]
  {
    hide Next, Leads, FinalBlock, DataPkt, Num;
    ResendMoves(c, f, w);
    LeadsHere(c, f, w);
    LeadsResend(c, f, w, w);
    var v := AfterResend(c, f, w);
    assert v.down == [Ack(Num(v.at))];
    ClientGoesOn(c, f, v);
    LeadsOn(c, f, w, v, ClientTakes);
    t := Next(c, f, v, ClientTakes);
  }

  /** Block 1 is duplicated, taken and acknowledged; the client sends block 2 behind
      the copy. */
  lemma CopyBehind(c: Cfg, f: seq<byte>) returns (t: Sys)
    requires Setting(c) && FinalBlock(c, f) >= 4
    ensures Leads(c, f, Init(), t) && Receiving(t) && t.srv.retr == 0 && t.down == []
    ensures t.at == 2 && t.srv.stage == 2 && t.up == [DataPkt(f, c.Blk(), 1), DataPkt(f, c.Blk(), 2)]
  {
    hide Next, Leads, FinalBlock, DataPkt, Accepts, RxStage;
    Greeting(c, f);
    var w := Run(c, f, Hello(c));
    LeadsToRun(c, f, Hello(c));
    var w1 := Next(c, f, w, TwiceUp(0));
    OneTwice(c, f, w);
    LeadsOn(c, f, Init(), w, TwiceUp(0));
    NeighbourNumbers(1);
    TakesAndAcks(c, f, w1, 1);
    LeadsOn(c, f, Init(), w1, DELIVERY);
    LeadsOn(c, f, Init(), Next(c, f, w1, DELIVERY), TURN);
    var w2 := Next(c, f, Next(c, f, w1, DELIVERY), TURN);
    ClientGoesOn(c, f, w2);
    LeadsOn(c, f, Init(), w2, ClientTakes);
    t := Next(c, f, w2, ClientTakes);
  }

  lemma LeadsToRun(c: Cfg, f: seq<byte>, evs: seq<Event>)
    requires Setting(c)
    ensures Leads(c, f, Init(), Run(c, f, evs))
  {
    hide RunFrom;
  }

  lemma OneTwice(c: Cfg, f: seq<byte>, w: Sys)
    requires Setting(c) && w.srv.Fits() && |w.up| == 1
    ensures Next(c, f, w, TwiceUp(0)) == w.(up := [w.up[0], w.up[0]])
  {
  }

  lemma FirstLost(c: Cfg, f: seq<byte>, w: Sys)
    requires Setting(c) && w.srv.Fits() && w.up != []
    ensures Next(c, f, w, LoseUp(0)) == w.(up := w.up[1..])
  {
  }

  /** With two retries the client gets three blocks ahead of the copy; when the copy
      brings the session back and the blocks between are lost, the fourth block breaks
      it off. */
  lemma BreaksByRetries(c: Cfg, f: seq<byte>) returns (t: Sys)
    requires Setting(c) && FinalBlock(c, f) >= 4 && c.limit >= 2
    ensures Leads(c, f, Init(), t) && t.srv.WasError()
  {
    hide Next, Leads, FinalBlock, DataPkt, Accepts, RxStage;
    var w2 := CopyBehind(c, f);
    var w3 := OneAhead(c, f, w2);
    var w4 := OneAhead(c, f, w3);
    LeadsThrough(c, f, Init(), w2, w3);
    LeadsThrough(c, f, Init(), w3, w4);
    SmallNumbers();
    TakesAndAcks(c, f, w4, 1);
    LeadsOn(c, f, Init(), w4, DELIVERY);
    LeadsOn(c, f, Init(), Next(c, f, w4, DELIVERY), TURN);
    var w5 := Next(c, f, Next(c, f, w4, DELIVERY), TURN);
    FirstLost(c, f, w5);
    LeadsOn(c, f, Init(), w5, LoseUp(0));
    var w6 := Next(c, f, w5, LoseUp(0));
    FirstLost(c, f, w6);
    LeadsOn(c, f, Init(), w6, LoseUp(0));
    var w7 := Next(c, f, w6, LoseUp(0));
    assert w7.up[0] == DataPkt(f, c.Blk(), 4);
    BlockRefused(c, f, w7, 4);
    LeadsOn(c, f, Init(), w7, DELIVERY);
    t := Next(c, f, w7, DELIVERY);
  }

  lemma SmallNumbers()
    ensures Accepts(4, Num(1)) && RxStage(4, Num(1)) == 1 && !Accepts(2, Num(4))
  {
  }

  // ------------------------------------------------------------- the theorem

  /** The exact condition, over all runs and with the session's own retransmissions, for
      the network not to break a write off: the file is a single block; or no wrap is
      within reach of the blocks and the retries together, and there are at most three
      blocks or at most one retry. */
  lemma BrokenOffEverExactly(c: Cfg, f: seq<byte>)
    requires Setting(c)
    ensures FinalBlock(c, f) == 1 || Close(c, f) <==>
            forall evs: seq<Event> :: !Run(c, f, evs).srv.WasError()
  {
    hide RunFrom, FinalBlock, Loose, Lone, NoResend;
    var n := FinalBlock(c, f);
    if n == 1 {
      forall evs: seq<Event>
        ensures !Run(c, f, evs).srv.WasError()
      {
        LoneRun(c, f, evs);
        LoneFine(c, f, Run(c, f, evs));
      }
    } else if Close(c, f) {
      forall evs: seq<Event>
        ensures !Run(c, f, evs).srv.WasError()
      {
        var g := LooseRun(c, f, evs);
        LooseFine(c, f, Run(c, f, evs), g);
      }
    } else if n >= WIRE {
      BreaksOff(c, f);
    } else {
      var t: Sys;
      if n + c.limit >= WIRE {
        t := BreaksAtWrap(c, f);
      } else {
        t := BreaksByRetries(c, f);
      }
      var evs :| RunFrom(c, f, Init(), evs) == t;
      assert Run(c, f, evs).srv.WasError();
    }
  }

  lemma LoneFine(c: Cfg, f: seq<byte>, w: Sys)
    requires Lone(c, f, w)
    ensures !w.srv.WasError()
  {
  }

  lemma LooseFine(c: Cfg, f: seq<byte>, w: Sys, g: nat)
    requires Setting(c) && Loose(c, f, w, g)
    ensures !w.srv.WasError()
  {
  }
}
