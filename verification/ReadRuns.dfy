/** Particular runs of the read protocol: the undisturbed transfer, which completes
    for every file; when a session may conclude from an acknowledgement that the
    client has the file; and the two ways in which a read goes wrong. */
module ReadRuns {
  import opened Octets
  import opened PacketBuffer
  import opened Requests
  import opened DataFile
  import opened SessionModel
  import opened SessionLaws
  import opened BlockSteps
  import opened Channels
  import opened ReadProtocol

  const TURN := Server(false, false)
  const DELIVERY := Server(true, false)
  const TIMEOUT := Server(false, true)
  const TAKE := ClientTakes(false)

  lemma {:induction false} RunTwo(c: Cfg, w: Sys, a: seq<Event>, b: seq<Event>)
    requires Setting(c) && w.srv.Fits()
    ensures RunFrom(c, w, a + b) == RunFrom(c, RunFrom(c, w, a), b)
    decreases |b|
  {
    hide Next;
    if b == [] {
      assert a + b == a;
    } else {
      RunTwo(c, w, a, b[..|b| - 1]);
      assert (a + b)[..|a + b| - 1] == a + b[..|b| - 1];
    }
  }

  lemma {:induction false} RunThen(c: Cfg, w: Sys, evs: seq<Event>, ev: Event)
    requires Setting(c) && w.srv.Fits()
    ensures RunFrom(c, w, evs + [ev]) == Next(c, RunFrom(c, w, evs), ev)
  {
    hide Next;
    assert (evs + [ev])[..|evs|] == evs;
  }

  lemma {:induction false} RunThree(c: Cfg, w: Sys, a: Event, b: Event, d: Event)
    requires Setting(c) && w.srv.Fits()
    ensures RunFrom(c, w, [a, b, d]) == Next(c, Next(c, Next(c, w, a), b), d)
  {
    hide Next;
    RunThen(c, w, [], a);
    RunThen(c, w, [a], b);
    RunThen(c, w, [a, b], d);
    assert [] + [a] == [a] && [a] + [b] == [a, b] && [a, b] + [d] == [a, b, d];
  }

  lemma {:induction false} RunFour(c: Cfg, w: Sys, a: Event, b: Event, d: Event, e: Event)
    requires Setting(c) && w.srv.Fits()
    ensures RunFrom(c, w, [a, b, d, e]) == Next(c, Next(c, Next(c, Next(c, w, a), b), d), e)
  {
    hide Next;
    RunThree(c, w, a, b, d);
    RunThen(c, w, [a, b, d], e);
    assert [a, b, d] + [e] == [a, b, d, e];
  }

  // ----------------------------------------------------- the undisturbed run

  /** Block `n` has been accepted, and its acknowledgement is on its way, alone. */
  ghost predicate Acked(c: Cfg, w: Sys, n: nat)
    requires Setting(c)
  {
    && Inv(c, w) && w.srv.Fits() && w.srv.stat == AckRx && w.srv.stage == n
    && First(c) <= n <= FinalBlock(c, File(c))
    && w.next == n + 1 && w.up == [AckOf(n)] && w.down == []
  }

  /** Block `n` has been sent and is on its way, alone. */
  ghost predicate Sent(c: Cfg, w: Sys, n: nat)
    requires Setting(c)
  {
    && Inv(c, w) && w.srv.Fits() && w.srv.stat == AckRx && w.srv.stage == n
    && First(c) <= n <= FinalBlock(c, File(c))
    && w.next == n && w.up == [] && w.down == [Msg(c, n)]
  }

  /** Block `n` is about to be sent, with nothing under way. */
  ghost predicate Ready(c: Cfg, w: Sys, n: nat)
    requires Setting(c)
  {
    && Inv(c, w) && w.srv.Fits() && w.srv.stat == DataTx && w.srv.stage == n
    && 1 <= n <= FinalBlock(c, File(c))
    && w.next == n && w.up == [] && w.down == []
  }

  lemma TurnSends(c: Cfg, w: Sys, n: nat)
    requires Setting(c) && Ready(c, w, n)
    ensures Sent(c, Next(c, w, TURN), n) && Next(c, w, TURN).srv.retr == w.srv.retr
  {
    hide Step, Linked, ClientFine, Block, WindowClosed, Loaded;
    SingleWindow(c, n);
    SendKeeps(c, w, Ev(Nothing, false));
    SendsBlock(c, w.srv, Ev(Nothing, false), n);
    NewsOf(w.srv.sent, Msg(c, n), w.down);
  }

  lemma TakeAcks(c: Cfg, w: Sys, n: nat)
    requires Setting(c) && Sent(c, w, n)
    ensures Acked(c, Next(c, w, TAKE), n) && Next(c, w, TAKE).srv == w.srv
  {
    hide Linked, Phases, Block, Prefix, Loaded, ClientStep;
    PeerKeeps(c, w, TAKE);
    AcceptFine(c, w, false);
    ClientMoves(c, w, TAKE);
  }

  lemma DeliveryMovesOn(c: Cfg, w: Sys, n: nat)
    requires Setting(c) && Acked(c, w, n)
    ensures var t := Next(c, w, DELIVERY);
            && (n < FinalBlock(c, File(c)) ==> Ready(c, t, n + 1))
            && (n == FinalBlock(c, File(c)) ==>
                  Inv(c, t) && t.srv.stat == Finish && !t.srv.WasError() && t.done && t.got == File(c))
  {
    hide Step, Linked, Phases, Block, Loaded, Accepts, RxStage, Msg;
    NewAckKeeps(c, w, false);
    NeighbourNumbers(n);
    TakesAck(c, w.srv, Num(n), false);
    NewsOf(w.srv.sent, Ack(0), w.down);
    WholeFile(File(c), c.Blk());
  }

  /** How a transfer begins, up to the first acknowledgement. */
  function Hello(c: Cfg): (r: seq<Event>) {
    if c.opt.WasSetAny() then [TURN, TURN, TAKE] else [TURN, TURN, TURN, TAKE]
  }

  lemma FirstTurns(c: Cfg)
    requires Setting(c)
    ensures var w := Next(c, Next(c, Init(c), TURN), TURN);
            && w.srv.retr == 0
            && if c.opt.WasSetAny() then Sent(c, w, 0) && w.srv.buf == Overwrite(Zeros(BUF_SIZE), OackBytes(c.opt))
               else Ready(c, w, 1)
  {
    hide Inv, Overwrite;
    InitInv(c);
    var w1 := Next(c, Init(c), TURN);
    assert Inv(c, w1) && w1.srv.stat == AckOptions by {
      NextKeeps(c, Init(c), TURN);
      FirstTurn(c);
    }
    NextKeeps(c, w1, TURN);
    FirstTurn(c);
    SecondTurn(c, w1);
  }

  lemma FirstTurn(c: Cfg)
    requires Setting(c)
    ensures var w := Next(c, Init(c), TURN);
            && w.srv.stat == AckOptions && w.srv.stage == 0 && w.srv.retr == 0 && !w.srv.crashed
            && w.srv.buf == Zeros(BUF_SIZE)
            && w.up == [] && w.down == [] && w.next == First(c)
  {
    hide Encode, Overwrite, Zeros;
  }

  lemma SecondTurn(c: Cfg, w: Sys)
    requires Setting(c) && w.srv.Fits() && w.srv.stat == AckOptions && w.srv.stage == 0 && !w.srv.crashed
    requires w.down == []
    ensures var t := Next(c, w, TURN);
            && t == w.(srv := t.srv, down := if c.opt.WasSetAny() then [Oack(c.opt)] else [])
            && t.srv.retr == w.srv.retr
            && (c.opt.WasSetAny() ==> t.srv.stat == AckRx && t.srv.stage == 0 &&
                                      t.srv.buf == (ReplyLength(c.opt); Overwrite(w.srv.buf, OackBytes(c.opt))))
            && (!c.opt.WasSetAny() ==> t.srv.stat == DataTx && t.srv.stage == 1)
  {
    hide Overwrite;
    NewsOf(w.srv.sent, Oack(c.opt), w.down);
  }

  lemma Greeting(c: Cfg)
    requires Setting(c)
    ensures Acked(c, Run(c, Hello(c)), First(c))
  {
    hide Next, Inv, RunFrom;
    FirstTurns(c);
    var w2 := Next(c, Next(c, Init(c), TURN), TURN);
    if c.opt.WasSetAny() {
      RunThree(c, Init(c), TURN, TURN, TAKE);
      TakeAcks(c, w2, 0);
    } else {
      RunFour(c, Init(c), TURN, TURN, TURN, TAKE);
      TurnSends(c, w2, 1);
      TakeAcks(c, Next(c, w2, TURN), 1);
    }
  }

  const ROUND: seq<Event> := [DELIVERY, TURN, TAKE]

  lemma {:induction false} RoundSends(c: Cfg, w: Sys, n: nat)
    requires Setting(c) && Acked(c, w, n) && n < FinalBlock(c, File(c))
    ensures Acked(c, RunFrom(c, w, ROUND), n + 1)
  {
    hide Next, Inv, RunFrom;
    RunThree(c, w, DELIVERY, TURN, TAKE);
    DeliveryMovesOn(c, w, n);
    var w1 := Next(c, w, DELIVERY);
    TurnSends(c, w1, n + 1);
    TakeAcks(c, Next(c, w1, TURN), n + 1);
  }

  function Rounds(n: nat): (r: seq<Event>) {
    if n == 0 then [] else Rounds(n - 1) + ROUND
  }

  lemma {:induction false} RoundsSend(c: Cfg, n: nat)
    requires Setting(c) && First(c) + n <= FinalBlock(c, File(c))
    ensures Acked(c, Run(c, Hello(c) + Rounds(n)), First(c) + n)
  {
    hide Acked, Next, RunFrom, FinalBlock;
    if n == 0 {
      assert Hello(c) + Rounds(0) == Hello(c);
      Greeting(c);
    } else {
      RoundsSend(c, n - 1);
      var w := Run(c, Hello(c) + Rounds(n - 1));
      assert Hello(c) + Rounds(n) == Hello(c) + Rounds(n - 1) + ROUND;
      RunTwo(c, Init(c), Hello(c) + Rounds(n - 1), ROUND);
      RoundSends(c, w, First(c) + n - 1);
    }
  }

  /** Every file can be read: the undisturbed run ends with the session finished and
      the client holding the whole file, for files of any length and across any
      number of wraps of the block numbers. */
  lemma ReadCompletes(c: Cfg)
    requires Setting(c)
    ensures var w := Run(c, Hello(c) + Rounds(FinalBlock(c, File(c)) - First(c)) + [DELIVERY]);
            w.srv.stat == Finish && !w.srv.WasError() && w.done && w.got == File(c)
  {
    hide Acked, Next;
    var evs := Hello(c) + Rounds(FinalBlock(c, File(c)) - First(c));
    RoundsSend(c, FinalBlock(c, File(c)) - First(c));
    RunThen(c, Init(c), evs, DELIVERY);
    DeliveryMovesOn(c, Run(c, evs), FinalBlock(c, File(c)));
  }

  // ------------------------------------------------------------- calm runs

  /** An event without a timeout and without strangers. */
  predicate Calm(ev: Event) {
    !ev.Stranger? && (ev.Server? ==> !ev.expired)
  }

  lemma CalmNext(c: Cfg, w: Sys, ev: Event)
    requires Setting(c) && w.srv.Fits() && w.srv.stat != Retransmit && Calm(ev)
    ensures Next(c, w, ev).srv.stat != Retransmit && !Breaks(c, w, ev)
  {
    hide Step, Encode;
    if ev.Server? {
      CalmStep(c, w.srv, Nothing);
      if w.up != [] {
        CalmStep(c, w.srv, FromClient(c, w.up[0], false).rx);
      }
    }
  }

  lemma {:induction false} CalmIsTame(c: Cfg, evs: seq<Event>)
    requires Setting(c) && forall i :: 0 <= i < |evs| ==> Calm(evs[i])
    ensures Tame(c, evs) && Run(c, evs).srv.stat != Retransmit
  {
    hide Next, Breaks, Calm;
    if evs != [] {
      CalmIsTame(c, evs[..|evs| - 1]);
      CalmNext(c, Run(c, evs[..|evs| - 1]), evs[|evs| - 1]);
    }
  }

  lemma {:induction false} RoundsCalm(n: nat)
    ensures forall i :: 0 <= i < |Rounds(n)| ==> Calm(Rounds(n)[i])
  {
    if n > 0 {
      RoundsCalm(n - 1);
    }
  }

  // ------------------------------------ concluding from an acknowledgement

  /** An acknowledgement ends the session, without an error. */
  ghost predicate Concludes(c: Cfg, w: Sys, ev: Event)
    requires Setting(c) && w.srv.Fits()
  {
    w.srv.stat == AckRx && Next(c, w, ev).srv.stat == Finish && !Next(c, w, ev).srv.WasError()
  }

  lemma ConclusionIsDelivery(c: Cfg, w: Sys, ev: Event)
    requires Setting(c) && Inv(c, w) && Concludes(c, w, ev)
    ensures ev.Server? && ev.deliver && w.up != []
  {
    hide Step, ClientFine, Linked, Loaded, ClientStep, AckOf, Clip;
    if ev.Server? && !(ev.deliver && w.up != []) {
      NothingForUs(c, w.srv, Nothing, ev.expired);
    } else if ev.Stranger? {
      if ev.from != c.client {
        NothingForUs(c, w.srv, Packet(ev.from, ev.bytes), ev.expired);
      }
    } else if !ev.Server? {
      ClientMoves(c, w, ev);
    }
  }

  /** Which acknowledgement it is that ends the session. */
  lemma ConclusionMeans(c: Cfg, w: Sys, ev: Event)
    requires Setting(c) && Inv(c, w) && Concludes(c, w, ev)
    ensures w.srv.stage == FinalBlock(c, File(c))
    ensures w.done || (FinalBlock(c, File(c)) > First(c) && Num(FinalBlock(c, File(c))) != 0)
  {
    hide ServerStep, Linked, Loaded, AckOf;
    ConclusionIsDelivery(c, w, ev);
    HeadOfUp(c, w, w.srv.stage);
    if w.up[0] == AckOf(w.srv.stage) {
      NewAckKeeps(c, w, ev.expired);
    } else {
      OldAckKeeps(c, w, ev.expired);
    }
  }

  /** The acknowledgement of block `n` is duplicated, and the block behind it lost. */
  function Spare(c: Cfg, n: nat): (r: seq<Event>)
    requires Setting(c) && First(c) <= n
  {
    Hello(c) + Rounds(n - First(c)) + [TwiceUp(0), DELIVERY, TURN, LoseDown(0)]
  }

  lemma SpareAck(c: Cfg, w: Sys, n: nat)
    requires Setting(c) && Acked(c, w, n) && n < FinalBlock(c, File(c))
    ensures var t := Next(c, Next(c, w, TwiceUp(0)), DELIVERY);
            && Inv(c, t) && t.srv.stat == DataTx && t.srv.stage == n + 1
            && t.next == n + 1 && t.up == [AckOf(n)]
  {
    hide Step, Linked, Phases, Block, Loaded, Accepts, RxStage, Msg, ClientFine;
    var w1 := Next(c, w, TwiceUp(0));
    PeerKeeps(c, w, TwiceUp(0));
    assert w1 == w.(up := [AckOf(n), AckOf(n)]);
    NewAckKeeps(c, w1, false);
    NeighbourNumbers(n);
    TakesAck(c, w1.srv, Num(n), false);
  }

  lemma LostLast(c: Cfg, w: Sys, n: nat)
    requires Setting(c) && Inv(c, w) && w.srv.stat == DataTx && w.srv.stage == n && w.next == n
    ensures var t := Next(c, Next(c, w, TURN), LoseDown(0));
            && Inv(c, t) && t.srv.stat == AckRx && t.srv.stage == n && t.next == n && t.up == w.up
  {
    hide Step, Linked, ClientFine, Block, WindowClosed, Loaded;
    SingleWindow(c, n);
    SendKeeps(c, w, Ev(Nothing, false));
    SendsBlock(c, w.srv, Ev(Nothing, false), n);
    PeerKeeps(c, Next(c, w, TURN), LoseDown(0));
  }

  /** The session then waits at the next block, with the spare acknowledgement under
      way and nothing else. */
  ghost predicate Spared(c: Cfg, w: Sys, n: nat)
    requires Setting(c)
  {
    Inv(c, w) && w.srv.stat == AckRx && w.srv.stage == n + 1 && w.next == n + 1 && w.up == [AckOf(n)]
  }

  lemma {:induction false} SpareRuns(c: Cfg, n: nat)
    requires Setting(c) && First(c) <= n < FinalBlock(c, File(c))
    ensures Spared(c, Run(c, Spare(c, n)), n) && Tame(c, Spare(c, n) + [DELIVERY])
  {
    hide Acked, Next, Inv, Tame, FinalBlock, AckOf;
    var before := Hello(c) + Rounds(n - First(c));
    var mishap := [TwiceUp(0), DELIVERY, TURN, LoseDown(0)];
    RoundsSend(c, n - First(c));
    var w := Run(c, before);
    AckedFits(c, w, n);
    SpareAck(c, w, n);
    LostLast(c, Next(c, Next(c, w, TwiceUp(0)), DELIVERY), n + 1);
    RunFour(c, w, TwiceUp(0), DELIVERY, TURN, LoseDown(0));
    RunTwo(c, Init(c), before, mishap);
    SpareCalm(c, n);
    CalmIsTame(c, Spare(c, n) + [DELIVERY]);
  }

  lemma SpareCalm(c: Cfg, n: nat)
    requires Setting(c) && First(c) <= n
    ensures forall i :: 0 <= i < |Spare(c, n) + [DELIVERY]| ==> Calm((Spare(c, n) + [DELIVERY])[i])
  {
    RoundsCalm(n - First(c));
  }

  lemma AckedFits(c: Cfg, w: Sys, n: nat)
    requires Setting(c) && Acked(c, w, n)
    ensures w.srv.Fits()
  {
  }

  lemma EarlyEnd(c: Cfg, w: Sys)
    requires Setting(c) && Spared(c, w, FinalBlock(c, File(c)) - 1) && Num(FinalBlock(c, File(c))) != 0
    requires FinalBlock(c, File(c)) > First(c)
    ensures Concludes(c, w, DELIVERY) && !w.done
  {
    hide ServerStep, Linked, Loaded, AckOf;
    OldAckKeeps(c, w, false);
  }

  lemma {:induction false} TameInit(c: Cfg, evs: seq<Event>, ev: Event)
    requires Setting(c) && Tame(c, evs + [ev])
    ensures Tame(c, evs)
  {
    assert (evs + [ev])[..|evs|] == evs;
  }

  /** The exact condition for a session to know, when an acknowledgement ends it,
      that the client has the whole file: the last block is also the first thing
      the session sends, or its number wraps to 0. In every other case there is a
      run in which the client lacks the last block. */
  lemma {:induction false} ConclusionExactly(c: Cfg)
    requires Setting(c)
    ensures FinalBlock(c, File(c)) == First(c) || Num(FinalBlock(c, File(c))) == 0 <==>
            forall evs: seq<Event>, ev: Event ::
              Tame(c, evs + [ev]) && Concludes(c, Run(c, evs), ev) ==> Run(c, evs).done
  {
    hide Tame, Concludes, RunFrom;
    if FinalBlock(c, File(c)) == First(c) || Num(FinalBlock(c, File(c))) == 0 {
      forall evs: seq<Event>, ev: Event | Tame(c, evs + [ev]) && Concludes(c, Run(c, evs), ev)
        ensures Run(c, evs).done
      {
        TameInit(c, evs, ev);
        InvariantHolds(c, evs);
        ConclusionMeans(c, Run(c, evs), ev);
      }
    } else {
      var n := FinalBlock(c, File(c)) - 1;
      SpareRuns(c, n);
      EarlyEnd(c, Run(c, Spare(c, n)));
    }
  }

  // ---------------------------------------------- breaking off at a wrap

  lemma BrokenOffWhere(c: Cfg, w: Sys)
    requires Setting(c) && Inv(c, w) && w.srv.WasError()
    ensures w.srv.stat == Finish && WIRE <= w.srv.stage <= FinalBlock(c, File(c))
  {
    hide ClientFine, Linked, Loaded, FinalBlock;
  }

  /** The spare acknowledgement breaks the session off when a wrap of the numbers lies
      behind it. */
  lemma SpareBreaksOff(c: Cfg, w: Sys, n: nat)
    requires Setting(c) && Spared(c, w, n) && n >= First(c) && Num(n + 1) == 0
    ensures Next(c, w, DELIVERY).srv.WasError()
  {
    hide ServerStep, Linked, Loaded, AckOf, FinalBlock;
    OldAckKeeps(c, w, false);
  }

  /** The exact condition for the network not to break a read off: the file has fewer
      than 65536 blocks. From there on a duplicated acknowledgement can end the
      session with an error. */
  lemma {:induction false} BrokenOffExactly(c: Cfg)
    requires Setting(c)
    ensures FinalBlock(c, File(c)) < WIRE <==>
            forall evs: seq<Event> :: Tame(c, evs) ==> !Run(c, evs).srv.WasError()
  {
    hide Tame, RunFrom, Inv, FinalBlock;
    if FinalBlock(c, File(c)) < WIRE {
      forall evs: seq<Event> | Tame(c, evs)
        ensures !Run(c, evs).srv.WasError()
      {
        InvariantHolds(c, evs);
        if Run(c, evs).srv.WasError() {
          BrokenOffWhere(c, Run(c, evs));
        }
      }
    } else {
      var n := WIRE - 1;
      SpareRuns(c, n);
      SpareBreaksOff(c, Run(c, Spare(c, n)), n);
      RunThen(c, Init(c), Spare(c, n), DELIVERY);
      assert Tame(c, Spare(c, n) + [DELIVERY]);
    }
  }

  // ------------------------------------------------------------- clean runs

  /** An event of a run without timeouts and without duplicated acknowledgements;
      blocks may be lost or duplicated, acknowledgements lost, and strangers may send
      what they like. */
  predicate Clean(ev: Event) {
    && (ev.Server? || ev.Stranger? ==> !ev.expired)
    && !ev.ClientResends? && !ev.TwiceUp? && ev != ClientTakes(true)
  }

  /** The current block has not been sent. */
  ghost predicate NotYetSent(c: Cfg, w: Sys)
    requires Setting(c)
  {
    if w.srv.stage <= First(c) then w.down == []
    else Phases(w.down, Msg(c, w.srv.stage - 1), Msg(c, w.srv.stage - 1))
  }

  /** At most one acknowledgement is under way, for the current block. */
  ghost predicate Tidy(c: Cfg, w: Sys)
    requires Setting(c)
  {
    match w.srv.stat
    case NeedInit => true
    case AckOptions => true
    case AckRx => w.up == [] || (w.next == w.srv.stage + 1 && w.up == [AckOf(w.srv.stage)])
    case DataTx => w.next == w.srv.stage && w.up == [] && NotYetSent(c, w)
    case Finish => w.done && !w.srv.WasError()
    case _ => false
  }

  lemma CleanDelivery(c: Cfg, w: Sys)
    requires Setting(c) && Inv(c, w) && Tidy(c, w) && w.srv.stat == AckRx && w.up != []
    ensures Tidy(c, ServerStep(c, w, FromClient(c, w.up[0], false), w.up[1..]))
  {
    hide Step, Phases, Block, Loaded, Accepts, RxStage, Msg;
    var s := w.srv.stage;
    NewsOf(w.srv.sent, Ack(0), w.down);
    NewAckKeeps(c, w, false);
    NeighbourNumbers(s);
    TakesAck(c, w.srv, Num(s), false);
  }

  lemma CleanTurn(c: Cfg, w: Sys, rx: Rx)
    requires Setting(c) && Inv(c, w) && Tidy(c, w)
    requires rx.Nothing? || (rx.Packet? && rx.from != c.client)
    ensures Tidy(c, ServerStep(c, w, Ev(rx, false), w.up))
  {
    hide Step, Linked, Phases, Block, Loaded, Msg, WindowClosed, Serving, ClientFine, Relevant, Clip;
    match w.srv.stat
    case NeedInit => CleanStart(c, w, rx);
    case AckOptions => CleanStart(c, w, rx);
    case AckRx =>
      if rx.Packet? {
        NotFromClient(c, w.srv.stat, rx.from, Clip(rx.bytes));
      }
      NothingForUs(c, w.srv, rx, false);
    case DataTx =>
      SingleWindow(c, w.srv.stage);
      ServingReady(c, w.srv);
      SendsBlock(c, w.srv, Ev(rx, false), w.srv.stage);
    case Finish => FinishAbsorbs(c, w.srv, Ev(rx, false));
  }

  lemma ServingReady(c: Cfg, s: St)
    requires Setting(c) && Serving(c, s) && s.stat == DataTx && s.stage >= 1
    ensures ReadyToSend(c, s, s.stage)
  {
  }

  lemma CleanStart(c: Cfg, w: Sys, rx: Rx)
    requires Setting(c) && Inv(c, w) && (w.srv.stat == NeedInit || w.srv.stat == AckOptions)
    ensures Tidy(c, ServerStep(c, w, Ev(rx, false), w.up))
  {
    hide Encode, Overwrite;
  }

  lemma CleanTake(c: Cfg, w: Sys)
    requires Setting(c) && Inv(c, w) && Tidy(c, w) && w.srv.stat != NeedInit && w.srv.stat != AckOptions
    ensures Tidy(c, ClientStep(c, w, false))
  {
    hide Step, Phases, Block, Loaded, Msg, ClientFine, ClientStep, Serving;
    if w.down == [] {
      EmptyTake(c, w, false);
    } else {
      HeadOfDown(c, w);
      HeadAndFine(c, w);
      if w.down[0] == Msg(c, w.next) && !w.done {
        AcceptFine(c, w, false);
        ClientAtServer(c, w);
      } else {
        IgnoreFine(c, w, false);
        if w.srv.stat == DataTx {
          NotYetKept(c, w, 0);
        }
        assert w.up + [] == w.up;
      }
    }
  }

  /** A client that finds the packet it awaits is at the session's own block. */
  lemma ClientAtServer(c: Cfg, w: Sys)
    requires Setting(c) && Inv(c, w) && w.down != [] && w.down[0] == Msg(c, w.next)
    requires w.srv.stat == AckRx || w.srv.stat == DataTx
    requires w.srv.stat == DataTx ==> w.next == w.srv.stage && NotYetSent(c, w)
    ensures w.srv.stat == AckRx && w.next == w.srv.stage
  {
    hide Phases, Msg, Loaded, Prefix;
    var s := w.srv.stage;
    if w.next == s + 1 {
      PhasesTake(w.down, Msg(c, s), Msg(c, s));
      MsgsDiffer(c, s + 1);
      assert false;
    }
    if w.srv.stat == DataTx {
      PhasesTake(w.down, Msg(c, s - 1), Msg(c, s - 1));
      MsgsDiffer(c, s);
      assert false;
    }
  }

  lemma NotYetKept(c: Cfg, w: Sys, i: nat)
    requires Setting(c) && NotYetSent(c, w)
    ensures NotYetSent(c, w.(down := Lose(w.down, i)))
    ensures NotYetSent(c, w.(down := Twice(w.down, i)))
    ensures w.down != [] ==> NotYetSent(c, w.(down := w.down[1..]))
  {
    hide Phases, Msg;
    if w.srv.stage > First(c) {
      var p := Msg(c, w.srv.stage - 1);
      PhasesLose(w.down, p, p, i);
      PhasesTwice(w.down, p, p, i);
      if w.down != [] {
        PhasesTake(w.down, p, p);
      }
    }
  }

  lemma CleanNext(c: Cfg, w: Sys, ev: Event)
    requires Setting(c) && Inv(c, w) && Tidy(c, w) && Clean(ev)
    ensures Tidy(c, Next(c, w, ev))
  {
    hide ServerStep, ClientStep, AckOf, Linked, ClientFine, Loaded, NotYetSent;
    if ev.Server? {
      if ev.deliver && w.up != [] && w.srv.stat == AckRx {
        CleanDelivery(c, w);
      } else {
        CleanTurn(c, w, Nothing);
      }
    } else if ev.Stranger? {
      if ev.from != c.client {
        CleanTurn(c, w, Packet(ev.from, ev.bytes));
      }
    } else if ev.ClientTakes? {
      if w.srv.stat == NeedInit || w.srv.stat == AckOptions {
        EmptyTake(c, w, false);
      } else {
        CleanTake(c, w);
        ClientKeepsServer(c, w);
      }
    } else if ev.LoseDown? && w.srv.stat == DataTx {
      NotYetKept(c, w, ev.i);
    } else if ev.TwiceDown? && w.srv.stat == DataTx {
      NotYetKept(c, w, ev.i);
    }
  }

  lemma ClientKeepsServer(c: Cfg, w: Sys)
    ensures ClientStep(c, w, false).srv == w.srv
  {
  }

  lemma {:induction false} CleanRun(c: Cfg, evs: seq<Event>)
    requires Setting(c) && c.limit == 0 && forall i :: 0 <= i < |evs| ==> Clean(evs[i])
    ensures Inv(c, Run(c, evs)) && Tidy(c, Run(c, evs))
  {
    hide Next, Inv, Tame, Clean;
    NeverDerails(c, evs);
    InvariantHolds(c, evs);
    if evs != [] {
      CleanRun(c, evs[..|evs| - 1]);
      CleanNext(c, Run(c, evs[..|evs| - 1]), evs[|evs| - 1]);
    }
  }

  /** The same request under another retransmission limit. */
  function Limited(c: Cfg, l: nat): (r: Cfg)
    ensures Setting(c) && l < WIRE ==> Setting(r)
  {
    c.(limit := l)
  }

  lemma SameSizes(c: Cfg, l: nat)
    ensures Limited(c, l).Blk() == c.Blk() && Limited(c, l).Window() == c.Window()
  {
  }

  lemma ReceivesUnlimited(c: Cfg, l: nat, s: St, rx: Rx)
    requires s.Fits()
    ensures Receive(Limited(c, l), s, rx) == Receive(c, s, rx)
  {
    hide Overwrite, Clip, WriteAt, Accepts, RxStage;
    SameSizes(c, l);
  }

  lemma WaitsUnlimited(c: Cfg, l: nat, s: St, ev: Ev)
    requires s.Fits()
    ensures StepDataRx(Limited(c, l), s, ev) == StepDataRx(c, s, ev)
    ensures StepAckRx(Limited(c, l), s, ev) == StepAckRx(c, s, ev)
  {
    hide Receive, Switch, Clip;
    SameSizes(c, l);
    ReceivesUnlimited(c, l, s, ev.rx);
  }

  lemma SendsUnlimited(c: Cfg, l: nat, s: St)
    requires Setting(c) && l < WIRE && s.Fits()
    ensures Limited(c, l).Valid() && StepDataTx(Limited(c, l), s) == StepDataTx(c, s)
  {
    hide Header, Overwrite, Splice, ReadAt, Switch;
    SameSizes(c, l);
  }

  lemma StartsUnlimited(c: Cfg, l: nat, s: St)
    requires Setting(c) && l < WIRE && s.Fits()
    ensures Limited(c, l).Valid() && StepInit(Limited(c, l), s) == StepInit(c, s)
    ensures StepOptions(Limited(c, l), s) == StepOptions(c, s)
    ensures StepError(Limited(c, l), s) == StepError(c, s)
  {
    hide Encode, Overwrite, Switch;
  }

  /** Where nothing is to be retried, the limit is not consulted. */
  lemma StepUnlimited(c: Cfg, l: nat, s: St, ev: Ev)
    requires Setting(c) && l < WIRE && s.Fits() && s.stat != Retransmit
    ensures Limited(c, l).Valid() && Step(Limited(c, l), s, ev) == Step(c, s, ev)
  {
    hide StepInit, StepError, StepOptions, StepDataTx, StepDataRx, StepAckTx, StepAckRx, Setting;
    SettingValid(c);
    StartsUnlimited(c, l, s);
    SendsUnlimited(c, l, s);
    WaitsUnlimited(c, l, s, ev);
  }

  lemma SettingValid(c: Cfg)
    requires Setting(c)
    ensures c.Valid()
  {
  }

  lemma NextUnlimited(c: Cfg, l: nat, w: Sys, ev: Event)
    requires Setting(c) && l < WIRE && w.srv.Fits() && w.srv.stat != Retransmit
    ensures Setting(Limited(c, l)) && Next(Limited(c, l), w, ev) == Next(c, w, ev)
  {
    hide Step, Encode;
    SameSizes(c, l);
    if ev.Server? {
      StepUnlimited(c, l, w.srv, Ev(Nothing, ev.expired));
      if w.up != [] {
        StepUnlimited(c, l, w.srv, FromClient(c, w.up[0], ev.expired));
      }
    } else if ev.Stranger? {
      StepUnlimited(c, l, w.srv, Ev(Packet(ev.from, ev.bytes), ev.expired));
    }
  }

  /** Without an expired timer nothing is to be retried. */
  lemma CleanNotRetried(c: Cfg, w: Sys, ev: Event)
    requires Setting(c) && w.srv.Fits() && w.srv.stat != Retransmit && Clean(ev)
    ensures Next(c, w, ev).srv.stat != Retransmit
  {
    hide Step, Encode;
    if ev.Server? {
      CalmStep(c, w.srv, Nothing);
      if w.up != [] {
        CalmStep(c, w.srv, FromClient(c, w.up[0], false).rx);
      }
    } else if ev.Stranger? {
      CalmStep(c, w.srv, Packet(ev.from, ev.bytes));
    }
  }

  lemma {:induction false} RunUnlimited(c: Cfg, l: nat, evs: seq<Event>)
    requires Setting(c) && l < WIRE && forall i :: 0 <= i < |evs| ==> Clean(evs[i])
    ensures Setting(Limited(c, l)) && Run(Limited(c, l), evs) == Run(c, evs)
    ensures Run(c, evs).srv.stat != Retransmit
  {
    hide Next, Clean;
    SameSizes(c, l);
    if evs != [] {
      var init := evs[..|evs| - 1];
      RunUnlimited(c, l, init);
      NextUnlimited(c, l, Run(c, init), evs[|evs| - 1]);
      CleanNotRetried(c, Run(c, init), evs[|evs| - 1]);
    }
  }

  /** Without timeouts and duplicated acknowledgements, a session that has finished has
      served the whole file, and no error has been registered, whatever strangers
      send. */
  lemma CleanFinish(c: Cfg, evs: seq<Event>)
    requires Setting(c) && forall i :: 0 <= i < |evs| ==> Clean(evs[i])
    requires Run(c, evs).srv.stat == Finish
    ensures Run(c, evs).done && Run(c, evs).got == File(c) && !Run(c, evs).srv.WasError()
  {
    hide RunFrom, Clean;
    RunUnlimited(c, 0, evs);
    CleanRun(Limited(c, 0), evs);
    WholeFile(File(c), c.Blk());
  }

  // -------------------------------------------------- the read that derails

  /** With the stream dead, block 1 is filled from the buffer as well. */
  lemma DeadStreamSends(c: Cfg, s: St, ev: Ev)
    requires Setting(c) && s.Fits() && s.stat == DataTx && s.stage == 1 && !s.crashed && !s.WasError()
    requires s.file == FileSt(SrvReq.Read, File(c), true)
    ensures var t := Step(c, s, ev);
            && t.sent == s.sent + [Data(1, s.buf[4..4 + Min(|File(c)|, c.Blk())])]
  {
    hide Header, WindowClosed;
    SingleWindow(c, 1);
    var head := Overwrite(s.buf, Header(3, Num(1)));
    var n := Min(|File(c)|, c.Blk());
    assert Splice(head, 4, []) == head;
    assert head[4..] == s.buf[4..];
    assert head[4..4 + n] == head[4..][..n];
    assert s.buf[4..4 + n] == s.buf[4..][..n];
  }

  /** The client answers the option acknowledgement, but the session's timer expires
      before it looks. */
  const DERAIL: seq<Event> := [TIMEOUT, TURN, TURN, TAKE]

  lemma TimesOut(c: Cfg, w: Sys)
    requires Setting(c) && Acked(c, w, 0) && w.srv.retr == 0 && c.limit >= 1
    ensures var t := Next(c, Next(c, w, TIMEOUT), TURN);
            t == w.(srv := t.srv) && t.srv == w.srv.(stat := DataTx, retr := 1)
  {
    hide Encode, Overwrite, Linked, ClientFine, Loaded;
    NewsOf(w.srv.sent, Ack(0), w.down);
  }

  lemma {:induction false} Derailed(c: Cfg, w: Sys)
    requires Setting(c) && c.opt.WasSetAny() && Acked(c, w, 0) && w.srv.retr == 0 && c.limit >= 1
    ensures var t := RunFrom(c, w, DERAIL);
            && t == w.(srv := t.srv)
            && t.srv.Fits() && t.srv.stat == AckRx && t.srv.stage == 0 && !t.srv.crashed && !t.srv.WasError()
            && !t.srv.last && t.srv.file == FileSt(SrvReq.Read, File(c), true)
            && t.srv.buf[4..] == w.srv.buf[4..]
  {
    hide Step, Linked, Phases, Loaded, Msg;
    RunFour(c, w, TIMEOUT, TURN, TURN, TAKE);
    TimesOut(c, w);
    var w2 := Next(c, Next(c, w, TIMEOUT), TURN);
    StageZeroSends(c, w2.srv, Ev(Nothing, false));
    var p := Data(0, w2.srv.buf[4..4 + c.Blk()]);
    NewsOf(w2.srv.sent, p, w2.down);
    var w3 := Next(c, w2, TURN);
    assert w3.down == [p];
  }

  lemma {:induction false} RunsOnDead(c: Cfg, w: Sys)
    requires Setting(c) && w.srv.Fits() && w.srv.stat == AckRx && w.srv.stage == 0
    requires !w.srv.crashed && !w.srv.WasError() && !w.srv.last && !w.done
    requires w.srv.file == FileSt(SrvReq.Read, File(c), true)
    requires w.next == 1 && w.up == [AckOf(0)] && w.down == [] && w.got == []
    ensures RunFrom(c, w, ROUND).got == w.srv.buf[4..4 + Min(|File(c)|, c.Blk())]
  {
    hide Step, Accepts, RxStage;
    RunThree(c, w, DELIVERY, TURN, TAKE);
    NeighbourNumbers(0);
    TakesAck(c, w.srv, 0, false);
    NewsOf(w.srv.sent, Ack(0), w.down);
    var w1 := Next(c, w, DELIVERY);
    DeadStreamSends(c, w1.srv, Ev(Nothing, false));
    var n := Min(|File(c)|, c.Blk());
    var p := Data(1, w1.srv.buf[4..4 + n]);
    NewsOf(w1.srv.sent, p, w1.down);
    assert w1.srv.buf[4..4 + n] == w1.srv.buf[4..][..n];
    assert w.srv.buf[4..4 + n] == w.srv.buf[4..][..n];
  }

  /** The byte of the option acknowledgement that ends up in the client's file. */
  function Stray(c: Cfg): (r: byte)
    requires c.Valid() && c.opt.WasSetAny()
  {
    ReplyLength(c.opt);
    Overwrite(Zeros(BUF_SIZE), OackBytes(c.opt))[4]
  }

  lemma GreetingBuffer(c: Cfg)
    requires Setting(c) && c.opt.WasSetAny()
    ensures var w := Run(c, Hello(c));
            && Acked(c, w, 0) && w.srv.retr == 0 && w.srv.buf[4] == Stray(c)
  {
    hide Next, Inv, RunFrom, Overwrite;
    FirstTurns(c);
    RunThree(c, Init(c), TURN, TURN, TAKE);
    TakeAcks(c, Next(c, Next(c, Init(c), TURN), TURN), 0);
  }

  /** A one-byte file that differs from the stray byte reads as the stray byte. */
  lemma WrongByte(c: Cfg)
    requires Setting(c) && c.opt.WasSetAny() && c.limit >= 1
    requires |File(c)| == 1 && File(c)[0] != Stray(c)
    ensures var got := Run(c, Hello(c) + DERAIL + ROUND).got;
            got == [Stray(c)] && !(got <= File(c))
  {
    hide Next, RunFrom, Linked, Loaded, Overwrite, Serving, Phases;
    GreetingBuffer(c);
    var w := Run(c, Hello(c));
    Derailed(c, w);
    RunTwo(c, Init(c), Hello(c), DERAIL);
    var w1 := Run(c, Hello(c) + DERAIL);
    assert Prefix(File(c), c.Blk(), 0) == [];
    RunsOnDead(c, w1);
    RunTwo(c, Init(c), Hello(c) + DERAIL, ROUND);
    assert w1.srv.buf[4..][0] == w.srv.buf[4..][0];
    assert w1.srv.buf[4..5] == [Stray(c)];
  }

  /** The same request for another file. */
  function With(c: Cfg, f: seq<byte>): (r: Cfg) {
    c.(opening := Opened(f))
  }

  lemma NextUntried(c: Cfg, w: Sys, ev: Event)
    requires Setting(c) && w.srv.Fits() && c.limit == 0 && Untried(w.srv)
    ensures Untried(Next(c, w, ev).srv)
  {
    hide Step, Encode;
    if ev.Server? {
      StepUntried(c, w.srv, Ev(Nothing, ev.expired));
      if w.up != [] {
        StepUntried(c, w.srv, FromClient(c, w.up[0], ev.expired));
      }
    } else if ev.Stranger? {
      StepUntried(c, w.srv, Ev(Packet(ev.from, ev.bytes), ev.expired));
    }
  }

  /** With no retry allowed every run is tame; without options, every run without
      strangers. */
  lemma {:induction false} NeverDerails(c: Cfg, evs: seq<Event>)
    requires Setting(c) && (c.limit == 0 || (!c.opt.WasSetAny() && NoStrangers(evs)))
    ensures Tame(c, evs) && (c.limit == 0 ==> Untried(Run(c, evs).srv))
  {
    hide Next, Inv, Untried;
    if evs == [] {
      StartUntried();
    } else {
      var init, ev := evs[..|evs| - 1], evs[|evs| - 1];
      NeverDerails(c, init);
      InvariantHolds(c, init);
      NothingBreaks(c, Run(c, init), ev);
      if c.limit == 0 {
        NextUntried(c, Run(c, init), ev);
      }
    }
  }

  lemma StartUntried()
    ensures Untried(Start())
  {
  }

  lemma NothingBreaks(c: Cfg, w: Sys, ev: Event)
    requires Setting(c) && Inv(c, w)
    requires if c.limit == 0 then Untried(w.srv) else !c.opt.WasSetAny() && !ev.Stranger?
    ensures !Breaks(c, w, ev)
  {
    hide ClientFine, Linked, Loaded, Clip, FinalBlock;
  }

  predicate NoStrangers(evs: seq<Event>) {
    forall i :: 0 <= i < |evs| ==> !evs[i].Stranger?
  }

  lemma SomeFileFails(c: Cfg) returns (f: seq<byte>, evs: seq<Event>)
    requires Setting(c) && c.opt.WasSetAny() && c.limit >= 1
    ensures NoStrangers(evs) && !(Run(With(c, f), evs).got <= f)
  {
    hide RunFrom, Stray;
    f := [if Stray(c) == 0 then 1 else 0];
    SameStray(c, f);
    WrongByte(With(c, f));
    evs := Hello(With(c, f)) + DERAIL + ROUND;
  }

  lemma SameStray(c: Cfg, f: seq<byte>)
    requires c.Valid() && c.opt.WasSetAny()
    ensures With(c, f).Valid() && Stray(With(c, f)) == Stray(c)
  {
  }

  // ------------------------------------------------ a stranger's byte

  /** The block is lost, a stranger's packet arrives before the timeout, and the
      session sends the block again. */
  function Strange(from: Addr, x: byte): (r: seq<Event>) {
    [LoseDown(0), Stranger(from, [0, 0, 0, 0, x], true), TURN, TURN, TAKE]
  }

  /** Block 1 has been sent, short, and the stream has failed with it. */
  ghost predicate ShortSent(c: Cfg, w: Sys)
    requires Setting(c)
  {
    && Sent(c, w, 1) && w.srv.retr == 0 && w.srv.file == FileSt(SrvReq.Read, File(c), true)
    && w.got == [] && !w.done
  }

  lemma ShortTurn(c: Cfg)
    requires Setting(c) && !c.opt.WasSetAny() && |File(c)| == 1
    ensures var w := Next(c, Next(c, Next(c, Init(c), TURN), TURN), TURN);
            ShortSent(c, w)
  {
    hide Step, Linked, Block, WindowClosed, Loaded;
    FirstTurns(c);
    var w := Next(c, Next(c, Init(c), TURN), TURN);
    TurnSends(c, w, 1);
    ShortBlockFails(c, w.srv, Ev(Nothing, false), 1);
    SendsBlock(c, w.srv, Ev(Nothing, false), 1);
    assert Prefix(File(c), c.Blk(), 0) == [];
  }

  lemma StrangerArrives(c: Cfg, w: Sys, from: Addr, x: byte)
    requires Setting(c) && ShortSent(c, w) && from != c.client && c.limit >= 1
    ensures var t := Next(c, Next(c, Next(c, w, LoseDown(0)), Stranger(from, [0, 0, 0, 0, x], true)), TURN);
            && t == w.(srv := t.srv, down := [])
            && t.srv.Fits() && t.srv.stat == DataTx && t.srv.stage == 1 && !t.srv.crashed && !t.srv.WasError()
            && t.srv.file == FileSt(SrvReq.Read, File(c), true)
            && t.srv.buf[4] == x
  {
    hide Step, Linked, Phases, Loaded, Msg, ClientFine, Relevant;
    var p: seq<byte> := [0, 0, 0, 0, x];
    var w1 := Next(c, w, LoseDown(0));
    assert w1 == w.(down := []);
    assert Clip(p) == p;
    NothingForUs(c, w1.srv, Packet(from, p), true) by {
      NotFromClient(c, w1.srv.stat, from, p);
    }
    NewsOf(w1.srv.sent, Ack(0), w1.down);
    var w2 := Next(c, w1, Stranger(from, p, true));
    assert w2 == w1.(srv := w1.srv.(stat := Retransmit, buf := Overwrite(w1.srv.buf, p)));
    TriesAgain(c, w2.srv);
    NewsOf(w2.srv.sent, Ack(0), w2.down);
  }

  lemma TriesAgain(c: Cfg, s: St)
    requires Setting(c) && s.Fits() && s.stat == Retransmit && s.retr == 0 && c.limit >= 1 && !s.crashed
    ensures Step(c, s, Ev(Nothing, false)) == s.(stat := DataTx, retr := 1)
  {
  }

  lemma StaleTaken(c: Cfg, w: Sys)
    requires Setting(c) && w.srv.Fits() && w.srv.stat == DataTx && w.srv.stage == 1
    requires !w.srv.crashed && !w.srv.WasError() && w.srv.file == FileSt(SrvReq.Read, File(c), true)
    requires w.next == 1 && !w.done && w.got == [] && w.down == [] && |File(c)| == 1
    ensures Next(c, Next(c, w, TURN), TAKE).got == [w.srv.buf[4]]
  {
    hide Step;
    DeadStreamSends(c, w.srv, Ev(Nothing, false));
    assert Min(|File(c)|, c.Blk()) == 1;
    var p := Data(1, w.srv.buf[4..5]);
    NewsOf(w.srv.sent, p, w.down);
    assert Next(c, w, TURN).down == [p];
  }

  /** A read without options of a one-byte file, with a retry allowed: a stranger can
      make it read as any byte. */
  lemma StrangersByte(c: Cfg, from: Addr, x: byte)
    requires Setting(c) && !c.opt.WasSetAny() && c.limit >= 1 && |File(c)| == 1 && from != c.client
    ensures Run(c, [TURN, TURN, TURN] + Strange(from, x)).got == [x]
  {
    hide Next, RunFrom, Sent;
    RunThree(c, Init(c), TURN, TURN, TURN);
    ShortTurn(c);
    var w := Run(c, [TURN, TURN, TURN]);
    RunTwo(c, Init(c), [TURN, TURN, TURN], Strange(from, x));
    var s := Stranger(from, [0, 0, 0, 0, x], true);
    StrangerArrives(c, w, from, x);
    RunThree(c, w, LoseDown(0), s, TURN);
    var w3 := RunFrom(c, w, [LoseDown(0), s, TURN]);
    RunThen(c, w, [LoseDown(0), s, TURN], TURN);
    assert [LoseDown(0), s, TURN] + [TURN] == [LoseDown(0), s, TURN, TURN];
    RunThen(c, w, [LoseDown(0), s, TURN, TURN], TAKE);
    assert [LoseDown(0), s, TURN, TURN] + [TAKE] == Strange(from, x);
    SentNext(c, w);
    StaleTaken(c, w3);
  }

  lemma SentNext(c: Cfg, w: Sys)
    requires Setting(c) && ShortSent(c, w)
    ensures w.next == 1
  {
  }

  // ---------------------------------------------------- relying on a read

  /** Among friends: whatever is lost, duplicated or late, but without strangers,
      reads are right if and only if the client asked for no options or no retry is
      allowed. */
  lemma ReliableAmongFriends(c: Cfg)
    requires Setting(c)
    ensures !c.opt.WasSetAny() || c.limit == 0 <==>
            forall f: seq<byte>, evs: seq<Event> ::
              NoStrangers(evs) ==> Run(With(c, f), evs).got <= f
  {
    hide RunFrom, Tame;
    if !c.opt.WasSetAny() || c.limit == 0 {
      forall f: seq<byte>, evs: seq<Event> | NoStrangers(evs)
        ensures Run(With(c, f), evs).got <= f
      {
        NeverDerails(With(c, f), evs);
        ReadSafety(With(c, f), evs);
      }
    } else {
      var f, evs := SomeFileFails(c);
    }
  }

  /** The exact condition for reads to be right in every run, strangers included: no
      retry is allowed. Otherwise there is a file, and a run, that hands the client
      bytes not in the file. */
  lemma ReliableExactly(c: Cfg)
    requires Setting(c)
    ensures c.limit == 0 <==> forall f: seq<byte>, evs: seq<Event> :: Run(With(c, f), evs).got <= f
  {
    hide RunFrom, Tame;
    if c.limit == 0 {
      forall f: seq<byte>, evs: seq<Event>
        ensures Run(With(c, f), evs).got <= f
      {
        NeverDerails(With(c, f), evs);
        ReadSafety(With(c, f), evs);
      }
    } else if c.opt.WasSetAny() {
      var f, evs := SomeFileFails(c);
    } else {
      var f: seq<byte> := [0];
      StrangersByte(With(c, f), c.client + [0], 1);
      var got := Run(With(c, f), [TURN, TURN, TURN] + Strange(c.client + [0], 1)).got;
      assert got == [1] && got[0] != f[0] && !(got <= f);
    }
  }
}
