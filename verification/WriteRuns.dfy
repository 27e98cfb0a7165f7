/** Particular runs of the write protocol: the undisturbed transfer, which
    completes for every file, and the transfer in which a retransmission makes
    both sides believe in a file that was not stored. */
module WriteRuns {
  import opened Octets
  import opened Requests
  import opened DataFile
  import opened SessionModel
  import opened SessionLaws
  import opened BlockSteps
  import opened Channels
  import opened WriteProtocol

  const TURN := Server(false, false)
  const DELIVERY := Server(true, false)
  const TIMEOUT := Server(false, true)

  /** The session waits for block `n` and that block is on its way, alone; `have`
      blocks are stored. */
  ghost predicate UnderWay(c: Cfg, f: seq<byte>, w: Sys, n: nat, have: nat)
    requires c.Blk() > 0
  {
    && 1 <= n <= FinalBlock(c, f)
    && w.srv.Fits() && w.srv.stat == DataRx && w.srv.stage == n
    && !w.srv.crashed && !w.srv.WasError() && !w.srv.last
    && w.srv.file == FileSt(SrvReq.Write, Prefix(f, c.Blk(), have), false)
    && w.at == n && w.up == [DataPkt(f, c.Blk(), n)] && w.down == []
  }

  lemma {:induction false} RunTwo(c: Cfg, f: seq<byte>, w: Sys, a: seq<Event>, b: seq<Event>)
    requires Setting(c) && w.srv.Fits()
    ensures RunFrom(c, f, w, a + b) == RunFrom(c, f, RunFrom(c, f, w, a), b)
    decreases |b|
  {
    hide Next;
    if b == [] {
      assert a + b == a;
    } else {
      RunTwo(c, f, w, a, b[..|b| - 1]);
      assert (a + b)[..|a + b| - 1] == a + b[..|b| - 1];
    }
  }

  lemma {:induction false} RunOne(c: Cfg, f: seq<byte>, w: Sys, ev: Event)
    requires Setting(c) && w.srv.Fits()
    ensures RunFrom(c, f, w, [ev]) == Next(c, f, w, ev)
  {
    hide Next;
    assert [ev][..0] == [];
  }

  /** How a transfer begins: the session answers the request, and the client takes
      the answer and sends its first block. */
  function Hello(c: Cfg): (r: seq<Event>) {
    (if c.opt.WasSetAny() then [TURN, TURN] else [TURN, TURN, TURN]) + [ClientTakes]
  }

  /** The state a write session starts its transfer in. */
  ghost predicate Fresh(w: Sys, stat: State, stage: nat, down: seq<Pkt>) {
    && w.srv.Fits() && w.srv.stat == stat && w.srv.stage == stage
    && !w.srv.crashed && !w.srv.WasError() && !w.srv.last && w.srv.retr == 0
    && w.srv.file == FileSt(SrvReq.Write, [], false)
    && w.at == 0 && w.up == [] && w.down == down
  }

  lemma FirstTurn(c: Cfg, f: seq<byte>)
    requires Setting(c)
    ensures Fresh(Next(c, f, Init(), TURN), AckOptions, 0, [])
  {
    hide Encode, Overwrite;
  }

  lemma SecondTurn(c: Cfg, f: seq<byte>, w: Sys)
    requires Setting(c) && Fresh(w, AckOptions, 0, [])
    ensures var t := Next(c, f, w, TURN);
            if c.opt.WasSetAny() then Fresh(t, DataRx, 1, [AckOf(c, 0)]) else Fresh(t, AckTx, 0, [])
  {
    hide Encode, Overwrite;
    NewsOf(w.srv.sent, Oack(c.opt), w.down);
  }

  lemma ThirdTurn(c: Cfg, f: seq<byte>, w: Sys)
    requires Setting(c) && Fresh(w, AckTx, 0, []) && !c.opt.WasSetAny()
    ensures Fresh(Next(c, f, w, TURN), DataRx, 1, [AckOf(c, 0)])
  {
    hide Encode, Overwrite;
    NewsOf(w.srv.sent, Ack(0), w.down);
  }

  lemma HelloTurns(c: Cfg, f: seq<byte>)
    requires Setting(c)
    ensures var w := RunFrom(c, f, Init(), if c.opt.WasSetAny() then [TURN, TURN] else [TURN, TURN, TURN]);
            Fresh(w, DataRx, 1, [AckOf(c, 0)])
  {
    hide Next, AckOf;
    FirstTurn(c, f);
    var w1 := Next(c, f, Init(), TURN);
    SecondTurn(c, f, w1);
    var w2 := Next(c, f, w1, TURN);
    RunOne(c, f, Init(), TURN);
    RunTwo(c, f, Init(), [TURN], [TURN]);
    assert [TURN] + [TURN] == [TURN, TURN];
    RunOne(c, f, w1, TURN);
    if !c.opt.WasSetAny() {
      ThirdTurn(c, f, w2);
      RunTwo(c, f, Init(), [TURN, TURN], [TURN]);
      assert [TURN, TURN] + [TURN] == [TURN, TURN, TURN];
      RunOne(c, f, w2, TURN);
    }
  }

  lemma Greeting(c: Cfg, f: seq<byte>)
    requires Setting(c)
    ensures var w := Run(c, f, Hello(c));
            UnderWay(c, f, w, 1, 0) && w.srv.retr == 0
  {
    hide Next, DataPkt, AckOf;
    var turns := if c.opt.WasSetAny() then [TURN, TURN] else [TURN, TURN, TURN];
    HelloTurns(c, f);
    RunTwo(c, f, Init(), turns, [ClientTakes]);
    var w := RunFrom(c, f, Init(), turns);
    RunOne(c, f, w, ClientTakes);
    TakesFirst(c, f, w);
  }

  lemma TakesFirst(c: Cfg, f: seq<byte>, w: Sys)
    requires Setting(c) && w.srv.Fits()
    requires w.at == 0 && w.up == [] && w.down == [AckOf(c, 0)]
    ensures Next(c, f, w, ClientTakes) == w.(at := 1, up := [DataPkt(f, c.Blk(), 1)], down := [])
  {
  }

  /** One undisturbed exchange: the block is stored, acknowledged, and the next one
      sent. */
  const ROUND: seq<Event> := [DELIVERY, TURN, ClientTakes]

  lemma {:induction false} RoundRuns(c: Cfg, f: seq<byte>, w: Sys)
    requires Setting(c) && w.srv.Fits()
    ensures RunFrom(c, f, w, ROUND)
            == Next(c, f, Next(c, f, Next(c, f, w, DELIVERY), TURN), ClientTakes)
  {
    hide Next;
    RunOne(c, f, w, DELIVERY);
    var w1 := Next(c, f, w, DELIVERY);
    RunOne(c, f, w1, TURN);
    var w2 := Next(c, f, w1, TURN);
    RunOne(c, f, w2, ClientTakes);
    RunTwo(c, f, w, [DELIVERY], [TURN]);
    RunTwo(c, f, w, [DELIVERY] + [TURN], [ClientTakes]);
    assert [DELIVERY] + [TURN] + [ClientTakes] == ROUND;
  }

  /** The session takes the block under way and is about to acknowledge it. */
  lemma Delivered(c: Cfg, f: seq<byte>, w: Sys, n: nat)
    requires Setting(c) && n >= 1 && UnderWay(c, f, w, n, n - 1)
    ensures var t := Next(c, f, w, DELIVERY);
            && t == w.(srv := t.srv, up := [])
            && t.srv == w.srv.(buf := t.srv.buf, stat := AckTx, last := n == FinalBlock(c, f),
                               file := FileSt(SrvReq.Write, Prefix(f, c.Blk(), n), false))
  {
    hide Step, DataPkt, Prefix, Accepts, RxStage, WindowClosed, FromClient;
    SingleWindow(c, n);
    NeighbourNumbers(n);
    StoresBlock(c, w.srv, f, n - 1, n, false);
    NewsOf(w.srv.sent, Ack(0), w.down);
  }

  lemma Acknowledged(c: Cfg, f: seq<byte>, w: Sys)
    requires Setting(c) && w.srv.Fits() && w.srv.stat == AckTx && !w.srv.crashed
    requires w.srv.stage >= 1 && w.down == []
    ensures var t := Next(c, f, w, TURN);
            && t == w.(srv := t.srv, down := [AckOf(c, w.srv.stage)])
            && t.srv.Fits()
            && t.srv == w.srv.(buf := t.srv.buf, sent := t.srv.sent, stage := w.srv.stage + 1,
                               stat := if w.srv.last then Finish else DataRx)
  {
    hide Encode, Overwrite, DataPkt;
    NewsOf(w.srv.sent, Ack(Num(w.srv.stage)), w.down);
  }

  lemma TakesNext(c: Cfg, f: seq<byte>, w: Sys)
    requires Setting(c) && w.srv.Fits()
    requires 1 <= w.at <= FinalBlock(c, f) && w.up == [] && w.down == [AckOf(c, w.at)]
    ensures Next(c, f, w, ClientTakes)
            == w.(at := w.at + 1, down := [],
                  up := if w.at < FinalBlock(c, f) then [DataPkt(f, c.Blk(), w.at + 1)] else [])
  {
    hide DataPkt;
  }

  lemma {:induction false} RoundStores(c: Cfg, f: seq<byte>, w: Sys, n: nat)
    requires Setting(c) && n >= 1 && UnderWay(c, f, w, n, n - 1)
    ensures var t := RunFrom(c, f, w, ROUND);
            && (n < FinalBlock(c, f) ==> UnderWay(c, f, t, n + 1, n))
            && (n == FinalBlock(c, f) ==>
                  t.srv.stat == Finish && t.srv.last && !t.srv.WasError() && ClientDone(c, f, t) &&
                  t.srv.file.content == f)
  {
    hide Next, DataPkt, AckOf, Prefix;
    RoundRuns(c, f, w);
    Delivered(c, f, w, n);
    var w1 := Next(c, f, w, DELIVERY);
    Acknowledged(c, f, w1);
    var w2 := Next(c, f, w1, TURN);
    TakesNext(c, f, w2);
    WholeFile(f, c.Blk());
  }

  function Rounds(n: nat): (r: seq<Event>) {
    if n == 0 then [] else Rounds(n - 1) + ROUND
  }

  lemma {:induction false} RoundsStore(c: Cfg, f: seq<byte>, n: nat)
    requires Setting(c) && n < FinalBlock(c, f)
    ensures UnderWay(c, f, Run(c, f, Hello(c) + Rounds(n)), n + 1, n)
  {
    hide UnderWay, Next, RunFrom, FinalBlock;
    if n == 0 {
      assert Hello(c) + Rounds(0) == Hello(c);
      Greeting(c, f);
    } else {
      RoundsStore(c, f, n - 1);
      var w := Run(c, f, Hello(c) + Rounds(n - 1));
      assert Hello(c) + Rounds(n) == Hello(c) + Rounds(n - 1) + ROUND;
      RunTwo(c, f, Init(), Hello(c) + Rounds(n - 1), ROUND);
      RoundStores(c, f, w, n);
    }
  }

  /** Every file can be written: the undisturbed run, of three events per block,
      ends with the session finished, the client satisfied and the file stored, for
      files of any length and across any number of wraps of the block numbers. */
  lemma WriteCompletes(c: Cfg, f: seq<byte>)
    requires Setting(c)
    ensures var w := Run(c, f, Hello(c) + Rounds(FinalBlock(c, f)));
            && w.srv.stat == Finish && w.srv.last && !w.srv.WasError()
            && ClientDone(c, f, w) && w.srv.file.content == f
  {
    hide UnderWay, Next;
    var n := FinalBlock(c, f);
    RoundsStore(c, f, n - 1);
    var w := Run(c, f, Hello(c) + Rounds(n - 1));
    assert Hello(c) + Rounds(n) == Hello(c) + Rounds(n - 1) + ROUND;
    RunTwo(c, f, Init(), Hello(c) + Rounds(n - 1), ROUND);
    RoundStores(c, f, w, n);
  }

  // ------------------------------------------------------ the broken promise

  /** The block is lost, the session's timer expires, and the session acknowledges
      the block it never got. */
  const MISHAP: seq<Event> := [LoseUp(0), TIMEOUT, TURN, TURN, ClientTakes]

  lemma {:induction false} MishapRuns(c: Cfg, f: seq<byte>, w: Sys)
    requires Setting(c) && w.srv.Fits()
    ensures RunFrom(c, f, w, MISHAP)
            == Next(c, f, Next(c, f, Next(c, f, Next(c, f, Next(c, f, w, LoseUp(0)), TIMEOUT), TURN), TURN),
                    ClientTakes)
  {
    hide Next;
    var w1 := Next(c, f, w, LoseUp(0));
    var w2 := Next(c, f, w1, TIMEOUT);
    var w3 := Next(c, f, w2, TURN);
    var w4 := Next(c, f, w3, TURN);
    RunOne(c, f, w, LoseUp(0));
    RunOne(c, f, w1, TIMEOUT);
    RunOne(c, f, w2, TURN);
    RunOne(c, f, w3, TURN);
    RunOne(c, f, w4, ClientTakes);
    RunTwo(c, f, w, [LoseUp(0)], [TIMEOUT]);
    RunTwo(c, f, w, [LoseUp(0)] + [TIMEOUT], [TURN]);
    RunTwo(c, f, w, [LoseUp(0)] + [TIMEOUT] + [TURN], [TURN]);
    RunTwo(c, f, w, [LoseUp(0)] + [TIMEOUT] + [TURN] + [TURN], [ClientTakes]);
    assert [LoseUp(0)] + [TIMEOUT] + [TURN] + [TURN] + [ClientTakes] == MISHAP;
  }

  lemma TimesOut(c: Cfg, f: seq<byte>, w: Sys)
    requires Setting(c) && w.srv.Fits() && w.srv.stat == DataRx && !w.srv.crashed
    requires w.srv.retr == 0 && c.limit >= 1
    ensures var t := Next(c, f, Next(c, f, w, TIMEOUT), TURN);
            && t == w.(srv := t.srv) && t.srv == w.srv.(stat := AckTx, retr := 1)
  {
    hide Encode, Overwrite, DataPkt;
    NewsOf(w.srv.sent, Ack(0), w.down);
  }

  /** After the mishap the next block is under way, with nothing stored. */
  lemma {:induction false} Mishap(c: Cfg, f: seq<byte>, w: Sys)
    requires Setting(c) && c.limit >= 1 && UnderWay(c, f, w, 1, 0) && w.srv.retr == 0 && FinalBlock(c, f) == 2
    ensures UnderWay(c, f, RunFrom(c, f, w, MISHAP), 2, 0)
  {
    hide DataPkt, AckOf, Prefix, Step, ServerStep;
    MishapRuns(c, f, w);
    var w1 := Next(c, f, w, LoseUp(0));
    assert w1 == w.(up := []);
    TimesOut(c, f, w1);
    var w3 := Next(c, f, Next(c, f, w1, TIMEOUT), TURN);
    Acknowledged(c, f, w3);
    TakesNext(c, f, Next(c, f, w3, TURN));
  }

  /** The empty last block arrives on top of nothing: it stores nothing, and the
      session finishes. */
  lemma {:induction false} EmptyLast(c: Cfg, f: seq<byte>, w: Sys)
    requires Setting(c) && UnderWay(c, f, w, 2, 0) && FinalBlock(c, f) == 2 && |f| == c.Blk()
    ensures var t := RunFrom(c, f, w, ROUND);
            && t.srv.stat == Finish && t.srv.last && !t.srv.WasError()
            && ClientDone(c, f, t) && t.srv.file.content == []
  {
    hide AckOf, Next;
    RoundRuns(c, f, w);
    var w1 := Next(c, f, w, DELIVERY);
    EmptyDelivered(c, f, w);
    Acknowledged(c, f, w1);
    var w2 := Next(c, f, w1, TURN);
    TakesNext(c, f, w2);
  }

  lemma EmptyData(c: Cfg, s: St)
    requires s.stage == 2 && s.file.req == SrvReq.Write
    ensures ReceiveData(c, s, 2, []) == (s, Ok)
  {
    hide WriteAt, Accepts, RxStage, Position;
    assert Num(2) == 2;
    NeighbourNumbers(2);
  }

  lemma EmptyDelivered(c: Cfg, f: seq<byte>, w: Sys)
    requires Setting(c) && UnderWay(c, f, w, 2, 0) && FinalBlock(c, f) == 2 && |f| == c.Blk()
    ensures var t := Next(c, f, w, DELIVERY);
            && t == w.(srv := t.srv, up := [])
            && t.srv == w.srv.(buf := t.srv.buf, stat := AckTx, last := true)
  {
    hide Encode, Overwrite, Receive, ReceiveData, Accepts, RxStage, WindowClosed;
    SingleWindow(c, 2);
    assert Block(f, c.Blk(), 2) == [];
    DataArrives(c, w.srv, 2, []);
    EmptyData(c, w.srv.(buf := Overwrite(w.srv.buf, Encode(Data(2, [])))));
    NewsOf(w.srv.sent, Ack(0), w.down);
  }

  /** With a retry allowed, every file of exactly one block can be lost without a
      trace: session and client both end well, and the stored file is empty. */
  lemma LostWithoutTrace(c: Cfg, f: seq<byte>)
    requires Setting(c) && c.limit >= 1 && |f| == c.Blk()
    ensures var w := Run(c, f, Hello(c) + MISHAP + ROUND);
            && w.srv.stat == Finish && w.srv.last && !w.srv.WasError()
            && ClientDone(c, f, w) && w.srv.file.content == [] && f != []
  {
    hide UnderWay, Next;
    Greeting(c, f);
    LastBlockBounds(|f|, c.Blk());
    assert FinalBlock(c, f) == 2;
    Mishap(c, f, Run(c, f, Hello(c)));
    RunTwo(c, f, Init(), Hello(c), MISHAP);
    EmptyLast(c, f, Run(c, f, Hello(c) + MISHAP));
    RunTwo(c, f, Init(), Hello(c) + MISHAP, ROUND);
  }

  lemma {:induction false} NeverResends(c: Cfg, f: seq<byte>, evs: seq<Event>)
    requires Setting(c) && c.limit == 0
    ensures NoResend(c, f, evs)
  {
    if evs != [] {
      NeverResends(c, f, evs[..|evs| - 1]);
    }
  }

  /** The exact setting in which a satisfied client can rely on the stored file,
      whatever is lost, duplicated or late: a retransmission limit of zero. */
  lemma ReliableExactly(c: Cfg)
    requires Setting(c)
    ensures c.limit == 0 <==>
            forall f: seq<byte>, evs: seq<Event> ::
              ClientDone(c, f, Run(c, f, evs)) ==> Run(c, f, evs).srv.file.content == f
  {
    if c.limit == 0 {
      forall f: seq<byte>, evs: seq<Event>
        ensures ClientDone(c, f, Run(c, f, evs)) ==> Run(c, f, evs).srv.file.content == f
      {
        NeverResends(c, f, evs);
        WriteSafety(c, f, evs);
      }
    } else {
      var f := Zeros(c.Blk());
      LostWithoutTrace(c, f);
      assert ClientDone(c, f, Run(c, f, Hello(c) + MISHAP + ROUND));
    }
  }

  // ---------------------------------------------- breaking off at a wrap

  /** An event without a timeout and without strangers. */
  predicate Calm(ev: Event) {
    !ev.Stranger? && (ev.Server? ==> !ev.expired)
  }

  lemma CalmNext(c: Cfg, f: seq<byte>, w: Sys, ev: Event)
    requires Setting(c) && w.srv.Fits() && w.srv.stat != Retransmit && Calm(ev)
    ensures Next(c, f, w, ev).srv.stat != Retransmit && !Resends(c, w, ev)
  {
    hide Step, Encode, DataPkt;
    if ev.Server? {
      CalmStep(c, w.srv, Nothing);
      if w.up != [] {
        CalmStep(c, w.srv, FromClient(c, w.up[0], false).rx);
      }
    } else {
      ClientLeavesServer(c, f, w);
    }
  }

  lemma {:induction false} CalmNeverResends(c: Cfg, f: seq<byte>, evs: seq<Event>)
    requires Setting(c) && forall i :: 0 <= i < |evs| ==> Calm(evs[i])
    ensures NoResend(c, f, evs) && Run(c, f, evs).srv.stat != Retransmit
  {
    hide Next, Resends, Calm;
    if evs != [] {
      CalmNeverResends(c, f, evs[..|evs| - 1]);
      CalmNext(c, f, Run(c, f, evs[..|evs| - 1]), evs[|evs| - 1]);
    }
  }

  lemma {:induction false} RoundsCalm(n: nat)
    ensures forall i :: 0 <= i < |Rounds(n)| ==> Calm(Rounds(n)[i])
  {
    if n > 0 {
      RoundsCalm(n - 1);
    }
  }

  /** A duplicated block, delivered once more after its acknowledgement. */
  const AGAIN: seq<Event> := [TwiceUp(0), DELIVERY, TURN, DELIVERY]

  lemma {:induction false} AgainRuns(c: Cfg, f: seq<byte>, w: Sys)
    requires Setting(c) && w.srv.Fits()
    ensures RunFrom(c, f, w, AGAIN)
            == Next(c, f, Next(c, f, Next(c, f, Next(c, f, w, TwiceUp(0)), DELIVERY), TURN), DELIVERY)
  {
    hide Next;
    var w1 := Next(c, f, w, TwiceUp(0));
    var w2 := Next(c, f, w1, DELIVERY);
    var w3 := Next(c, f, w2, TURN);
    RunOne(c, f, w, TwiceUp(0));
    RunOne(c, f, w1, DELIVERY);
    RunOne(c, f, w2, TURN);
    RunOne(c, f, w3, DELIVERY);
    RunTwo(c, f, w, [TwiceUp(0)], [DELIVERY]);
    RunTwo(c, f, w, [TwiceUp(0)] + [DELIVERY], [TURN]);
    RunTwo(c, f, w, [TwiceUp(0)] + [DELIVERY] + [TURN], [DELIVERY]);
    assert [TwiceUp(0)] + [DELIVERY] + [TURN] + [DELIVERY] == AGAIN;
  }

  /** The session takes block `n` and acknowledges it; a copy of it is still under
      way. */
  lemma TakenOnce(c: Cfg, f: seq<byte>, w: Sys, n: nat)
    requires Setting(c) && 1 <= n < FinalBlock(c, f) && UnderWay(c, f, w, n, n - 1)
    ensures var t := Next(c, f, Next(c, f, Next(c, f, w, TwiceUp(0)), DELIVERY), TURN);
            && t.srv.Fits() && t.srv.stat == DataRx && t.srv.stage == n + 1
            && !t.srv.crashed && !t.srv.WasError() && t.up == [DataPkt(f, c.Blk(), n)]
  {
    hide Step, DataPkt, Prefix, Accepts, RxStage, WindowClosed, FromClient, AckOf;
    SingleWindow(c, n);
    NeighbourNumbers(n);
    var w1 := Next(c, f, w, TwiceUp(0));
    assert w1 == w.(up := [DataPkt(f, c.Blk(), n), DataPkt(f, c.Blk(), n)]);
    StoresBlock(c, w1.srv, f, n - 1, n, false);
    NewsOf(w1.srv.sent, Ack(0), w1.down);
    Acknowledged(c, f, Next(c, f, w1, DELIVERY));
  }

  /** A wrap of the numbers behind it, the copy breaks the session off. */
  lemma CopyBreaksOff(c: Cfg, f: seq<byte>, w: Sys, n: nat)
    requires Setting(c) && 1 <= n <= FinalBlock(c, f) && Num(n + 1) == 0
    requires w.srv.Fits() && w.srv.stat == DataRx && w.srv.stage == n + 1 && !w.srv.crashed && !w.srv.WasError()
    requires w.up == [DataPkt(f, c.Blk(), n)]
    ensures Next(c, f, w, DELIVERY).srv.WasError()
  {
    hide Step, Accepts, RxStage, Block;
    NeighbourNumbers(n + 1);
    BlockSizes(f, c.Blk(), n);
    RefusesNumber(c, w.srv, Num(n), Block(f, c.Blk(), n), false);
  }

  /** How a transfer is broken off behind its first wrap. */
  function WrapRun(c: Cfg): (r: seq<Event>) {
    Hello(c) + Rounds(WIRE - 2) + AGAIN
  }

  lemma {:induction false} BreaksOff(c: Cfg, f: seq<byte>)
    requires Setting(c) && FinalBlock(c, f) >= WIRE
    ensures NoResend(c, f, WrapRun(c)) && Run(c, f, WrapRun(c)).srv.WasError()
  {
    hide Next, NoResend, RunFrom;
    var n := WIRE - 1;
    var before := Hello(c) + Rounds(n - 1);
    RoundsStore(c, f, n - 1);
    var w := Run(c, f, before);
    TakenOnce(c, f, w, n);
    AgainRuns(c, f, w);
    RunTwo(c, f, Init(), before, AGAIN);
    CopyBreaksOff(c, f, Next(c, f, Next(c, f, Next(c, f, w, TwiceUp(0)), DELIVERY), TURN), n);
    WrapRunCalm(c);
    CalmNeverResends(c, f, WrapRun(c));
  }

  lemma WrapRunCalm(c: Cfg)
    ensures forall i :: 0 <= i < |WrapRun(c)| ==> Calm(WrapRun(c)[i])
  {
    RoundsCalm(WIRE - 2);
  }

  /** The exact condition for the network not to break a write off: the file has fewer
      than 65536 blocks. From there on a duplicated block can end the session with an
      error. */
  lemma {:induction false} BrokenOffExactly(c: Cfg, f: seq<byte>)
    requires Setting(c)
    ensures FinalBlock(c, f) < WIRE <==>
            forall evs: seq<Event> :: NoResend(c, f, evs) ==> !Run(c, f, evs).srv.WasError()
  {
    hide NoResend, RunFrom, FinalBlock;
    if FinalBlock(c, f) < WIRE {
      forall evs: seq<Event> | NoResend(c, f, evs)
        ensures !Run(c, f, evs).srv.WasError()
      {
        WriteSafety(c, f, evs);
      }
    } else {
      BreaksOff(c, f);
    }
  }
}
