/** From which states a write can still be completed: the exact test, over every state
    a run without retransmissions can reach. */
module WriteRecovery {
  import opened Octets
  import opened Requests
  import opened DataFile
  import opened SessionModel
  import opened SessionLaws
  import opened BlockSteps
  import opened Channels
  import opened WriteProtocol
  import opened WriteRuns

  /** The session has finished with the whole file, and the client knows. */
  predicate Complete(c: Cfg, f: seq<byte>, w: Sys)
    requires c.Blk() > 0
  {
    w.srv.stat == Finish && w.srv.last && ClientDone(c, f, w)
  }

  /** The test: while the session waits for block `e`, the client must be at that
      block, or an acknowledgement that gets it there be under way, or the session be
      able to take the block before once more and acknowledge it again. */
  predicate Recoverable(c: Cfg, f: seq<byte>, w: Sys)
    requires c.Blk() > 0
  {
    var e := w.srv.stage;
    match w.srv.stat
    case NeedInit => true
    case AckOptions => true
    case AckTx => true
    case DataRx => w.at == e || (e >= 1 && AckOf(c, e - 1) in w.down) || (e >= 2 && Num(e) != 0)
    case Finish => w.srv.last && (ClientDone(c, f, w) || (e >= 1 && AckOf(c, e - 1) in w.down))
    case _ => false
  }

  /** No step of a run that starts in `w` retransmits. */
  ghost predicate NoResendFrom(c: Cfg, f: seq<byte>, w: Sys, evs: seq<Event>)
    requires Setting(c) && w.srv.Fits()
  {
    evs == [] ||
    (&& NoResendFrom(c, f, w, evs[..|evs| - 1])
     && !Resends(c, RunFrom(c, f, w, evs[..|evs| - 1]), evs[|evs| - 1]))
  }

  lemma {:induction false} NoResendTwo(c: Cfg, f: seq<byte>, a: seq<Event>, b: seq<Event>)
    requires Setting(c)
    ensures NoResend(c, f, a + b) <==> NoResend(c, f, a) && NoResendFrom(c, f, Run(c, f, a), b)
    decreases |b|
  {
    hide Next, Resends;
    if b == [] {
      assert a + b == a;
    } else {
      var front := b[..|b| - 1];
      NoResendTwo(c, f, a, front);
      RunTwo(c, f, Init(), a, front);
      assert (a + b)[..|a + b| - 1] == a + front;
    }
  }

  lemma {:induction false} CalmFrom(c: Cfg, f: seq<byte>, w: Sys, evs: seq<Event>)
    requires Setting(c) && w.srv.Fits() && w.srv.stat != Retransmit && AllCalm(evs)
    ensures NoResendFrom(c, f, w, evs) && RunFrom(c, f, w, evs).srv.stat != Retransmit
  {
    hide Next, Resends, Calm;
    if evs != [] {
      CalmFrom(c, f, w, evs[..|evs| - 1]);
      CalmNext(c, f, RunFrom(c, f, w, evs[..|evs| - 1]), evs[|evs| - 1]);
    }
  }

  predicate AllCalm(evs: seq<Event>) {
    forall i :: 0 <= i < |evs| ==> Calm(evs[i])
  }

  /** One event, and then a run. */
  lemma {:induction false} RunFirst(c: Cfg, f: seq<byte>, w: Sys, ev: Event, evs: seq<Event>)
    requires Setting(c) && w.srv.Fits()
    ensures RunFrom(c, f, w, [ev] + evs) == RunFrom(c, f, Next(c, f, w, ev), evs)
    ensures Calm(ev) && AllCalm(evs) ==> AllCalm([ev] + evs)
  {
    hide Next, RunFrom;
    RunTwo(c, f, w, [ev], evs);
    RunOne(c, f, w, ev);
  }

  // ------------------------------------------------- what can be completed

  lemma {:induction false} FinishRounds(c: Cfg, f: seq<byte>, w: Sys, n: nat) returns (evs: seq<Event>)
    requires Setting(c) && n >= 1 && UnderWay(c, f, w, n, n - 1)
    ensures AllCalm(evs) && Complete(c, f, RunFrom(c, f, w, evs))
    decreases FinalBlock(c, f) - n
  {
    hide UnderWay, Next, RunFrom, FinalBlock;
    UnderWayWhere(c, f, w, n);
    RoundStores(c, f, w, n);
    RoundCalm();
    if n == FinalBlock(c, f) {
      evs := ROUND;
    } else {
      var more := FinishRounds(c, f, RunFrom(c, f, w, ROUND), n + 1);
      RunTwo(c, f, w, ROUND, more);
      evs := ROUND + more;
    }
  }

  lemma UnderWayWhere(c: Cfg, f: seq<byte>, w: Sys, n: nat)
    requires Setting(c) && n >= 1 && UnderWay(c, f, w, n, n - 1)
    ensures n <= FinalBlock(c, f) && w.srv.Fits()
  {
  }

  lemma RoundCalm()
    ensures AllCalm(ROUND)
  {
  }

  /** Everything on its way to the session is lost. */
  lemma {:induction false} LoseAllUp(c: Cfg, f: seq<byte>, w: Sys) returns (evs: seq<Event>)
    requires Setting(c) && w.srv.Fits()
    ensures AllCalm(evs) && RunFrom(c, f, w, evs) == w.(up := [])
    decreases |w.up|
  {
    hide RunFrom;
    if w.up == [] {
      evs := [];
      NoEvents(c, f, w);
    } else {
      var w1 := Next(c, f, w, LoseUp(0));
      assert w1 == w.(up := w.up[1..]);
      var more := LoseAllUp(c, f, w1);
      RunFirst(c, f, w, LoseUp(0), more);
      evs := [LoseUp(0)] + more;
    }
  }

  lemma {:induction false} NoEvents(c: Cfg, f: seq<byte>, w: Sys)
    requires Setting(c) && w.srv.Fits()
    ensures RunFrom(c, f, w, []) == w
  {
  }

  /** Everything on its way to the client is lost but the last `keep` packets. */
  lemma {:induction false} LoseDownTo(c: Cfg, f: seq<byte>, w: Sys, keep: nat) returns (evs: seq<Event>)
    requires Setting(c) && w.srv.Fits() && keep <= |w.down|
    ensures AllCalm(evs) && RunFrom(c, f, w, evs) == w.(down := w.down[|w.down| - keep..])
    decreases |w.down|
  {
    hide RunFrom;
    if |w.down| == keep {
      evs := [];
      NoEvents(c, f, w);
      assert w.down[0..] == w.down;
    } else {
      var w1 := Next(c, f, w, LoseDown(0));
      assert w1 == w.(down := w.down[1..]);
      var more := LoseDownTo(c, f, w1, keep);
      RunFirst(c, f, w, LoseDown(0), more);
      evs := [LoseDown(0)] + more;
      assert w.down[1..][|w.down| - 1 - keep..] == w.down[|w.down| - keep..];
    }
  }

  lemma Emptied(c: Cfg, f: seq<byte>, w: Sys, keep: nat) returns (evs: seq<Event>)
    requires Setting(c) && w.srv.Fits() && keep <= |w.down|
    ensures AllCalm(evs) && RunFrom(c, f, w, evs) == w.(up := [], down := w.down[|w.down| - keep..])
  {
    hide RunFrom, Next;
    var a := LoseAllUp(c, f, w);
    var b := LoseDownTo(c, f, w.(up := []), keep);
    RunTwo(c, f, w, a, b);
    evs := a + b;
  }

  /** The client is at the block the session waits for: it sends it again. */
  lemma ClientAtBlock(c: Cfg, f: seq<byte>, w: Sys) returns (evs: seq<Event>)
    requires Setting(c) && Inv(c, f, w) && w.srv.stat == DataRx && w.at == w.srv.stage
    ensures AllCalm(evs) && Complete(c, f, RunFrom(c, f, w, evs))
  {
    hide RunFrom, Linked, Prefix, DataPkt, Complete, ClientStep, Next;
    var a := Emptied(c, f, w, 0);
    var w1 := w.(up := [], down := []);
    assert w.down[|w.down| - 0..] == [];
    var w2 := Next(c, f, w1, ClientResends);
    ResendsBlock(c, f, w1);
    var more := FinishRounds(c, f, w2, w.at);
    RunFirst(c, f, w1, ClientResends, more);
    RunTwo(c, f, w, a, [ClientResends] + more);
    evs := a + ([ClientResends] + more);
  }

  lemma ResendsBlock(c: Cfg, f: seq<byte>, w: Sys)
    requires Setting(c) && w.srv.Fits() && 1 <= w.at <= FinalBlock(c, f) && w.up == []
    ensures Next(c, f, w, ClientResends) == w.(up := [DataPkt(f, c.Blk(), w.at)])
  {
    hide DataPkt;
  }

  /** The acknowledgement is under way: the client takes it and sends the block. */
  lemma AckUnderWay(c: Cfg, f: seq<byte>, w: Sys) returns (evs: seq<Event>)
    requires Setting(c) && Inv(c, f, w) && w.srv.stat == DataRx && w.at + 1 == w.srv.stage
    requires AckOf(c, w.srv.stage - 1) in w.down
    ensures AllCalm(evs) && Complete(c, f, RunFrom(c, f, w, evs))
  {
    hide RunFrom, Prefix, DataPkt, Complete, ClientStep, Next, AckOf, Phases;
    var e := w.srv.stage;
    NewerIsLast(w.down, AckOf(c, if e == 1 then 0 else e - 2), AckOf(c, e - 1));
    var a := Emptied(c, f, w, 1);
    var w1 := w.(up := [], down := [AckOf(c, e - 1)]);
    assert w.down[|w.down| - 1..] == [AckOf(c, e - 1)];
    if e == 1 {
      TakesFirst(c, f, w1);
    } else {
      TakesNext(c, f, w1);
    }
    var more := FinishRounds(c, f, Next(c, f, w1, ClientTakes), e);
    RunFirst(c, f, w1, ClientTakes, more);
    RunTwo(c, f, w, a, [ClientTakes] + more);
    evs := a + ([ClientTakes] + more);
  }

  /** The acknowledgement is lost: the client sends the block before once more, and the
      session acknowledges it again. */
  lemma AckLost(c: Cfg, f: seq<byte>, w: Sys) returns (evs: seq<Event>)
    requires Setting(c) && Inv(c, f, w) && w.srv.stat == DataRx && w.at + 1 == w.srv.stage
    requires w.srv.stage >= 2 && Num(w.srv.stage) != 0
    ensures AllCalm(evs) && Complete(c, f, RunFrom(c, f, w, evs))
  {
    hide RunFrom, Prefix, Complete, Next, AckOf, Phases, Linked;
    var e := w.srv.stage;
    var a := Emptied(c, f, w, 0);
    var w1 := w.(up := [], down := []);
    assert w.down[|w.down| - 0..] == [];
    ResendsBlock(c, f, w1);
    var w2 := Next(c, f, w1, ClientResends);
    StoredAgain(c, f, w2);
    var w3 := Next(c, f, w2, DELIVERY);
    Acknowledged(c, f, w3);
    var w4 := Next(c, f, w3, TURN);
    TakesNext(c, f, w4);
    var w5 := Next(c, f, w4, ClientTakes);
    var more := FinishRounds(c, f, w5, e);
    RunFirst(c, f, w4, ClientTakes, more);
    RunFirst(c, f, w3, TURN, [ClientTakes] + more);
    RunFirst(c, f, w2, DELIVERY, [TURN] + ([ClientTakes] + more));
    RunFirst(c, f, w1, ClientResends, [DELIVERY] + ([TURN] + ([ClientTakes] + more)));
    RunTwo(c, f, w, a, [ClientResends] + ([DELIVERY] + ([TURN] + ([ClientTakes] + more))));
    evs := a + ([ClientResends] + ([DELIVERY] + ([TURN] + ([ClientTakes] + more))));
  }

  lemma StoredAgain(c: Cfg, f: seq<byte>, w: Sys)
    requires Setting(c) && w.srv.Fits() && w.srv.stat == DataRx && !w.srv.crashed && !w.srv.WasError()
    requires 2 <= w.srv.stage <= FinalBlock(c, f) && Num(w.srv.stage) != 0
    requires w.srv.file == FileSt(SrvReq.Write, Prefix(f, c.Blk(), w.srv.stage - 1), false)
    requires w.up == [DataPkt(f, c.Blk(), w.srv.stage - 1)] && w.down == []
    ensures var t := Next(c, f, w, DELIVERY);
            && t == w.(srv := t.srv, up := [])
            && t.srv == w.srv.(buf := t.srv.buf, stat := AckTx, stage := w.srv.stage - 1, last := false)
            && t.srv.Fits()
  {
    hide Step, DataPkt, Prefix, Accepts, RxStage, WindowClosed, FromClient;
    var e := w.srv.stage;
    SingleWindow(c, e - 1);
    NeighbourNumbers(e);
    StoresBlock(c, w.srv, f, e - 1, e - 1, false);
    NewsOf(w.srv.sent, Ack(0), w.down);
  }

  lemma FromDataRx(c: Cfg, f: seq<byte>, w: Sys) returns (evs: seq<Event>)
    requires Setting(c) && Inv(c, f, w) && Recoverable(c, f, w) && w.srv.stat == DataRx
    ensures AllCalm(evs) && Complete(c, f, RunFrom(c, f, w, evs))
  {
    hide RunFrom, Prefix, Complete, AckOf, Phases, DataPkt;
    if w.at == w.srv.stage {
      evs := ClientAtBlock(c, f, w);
    } else if AckOf(c, w.srv.stage - 1) in w.down {
      evs := AckUnderWay(c, f, w);
    } else {
      evs := AckLost(c, f, w);
    }
  }

  /** The session is through: the client takes the last acknowledgement. */
  lemma FromFinish(c: Cfg, f: seq<byte>, w: Sys) returns (evs: seq<Event>)
    requires Setting(c) && Inv(c, f, w) && Recoverable(c, f, w) && w.srv.stat == Finish
    ensures AllCalm(evs) && Complete(c, f, RunFrom(c, f, w, evs))
  {
    hide RunFrom, Prefix, AckOf, Phases, DataPkt, ClientStep, Next;
    if ClientDone(c, f, w) {
      evs := [];
      NoEvents(c, f, w);
    } else {
      var e := w.srv.stage;
      NewerIsLast(w.down, AckOf(c, e - 2), AckOf(c, e - 1));
      var a := Emptied(c, f, w, 1);
      var w1 := w.(up := [], down := [AckOf(c, e - 1)]);
      assert w.down[|w.down| - 1..] == [AckOf(c, e - 1)];
      TakesNext(c, f, w1);
      NoEvents(c, f, Next(c, f, w1, ClientTakes));
      RunFirst(c, f, w1, ClientTakes, []);
      RunTwo(c, f, w, a, [ClientTakes] + []);
      evs := a + ([ClientTakes] + []);
    }
  }

  /** A turn of a session that is about to answer leads to a state that can be
      completed. */
  lemma AnswerKeeps(c: Cfg, f: seq<byte>, w: Sys)
    requires Setting(c) && Inv(c, f, w)
    requires w.srv.stat == NeedInit || w.srv.stat == AckOptions || w.srv.stat == AckTx
    ensures var t := Next(c, f, w, TURN);
            && Inv(c, f, t) && Recoverable(c, f, t)
            && (w.srv.stat == NeedInit ==> t.srv.stat == AckOptions)
            && (w.srv.stat == AckOptions ==> t.srv.stat == DataRx || t.srv.stat == AckTx)
            && (w.srv.stat == AckTx ==> t.srv.stat == DataRx || t.srv.stat == Finish)
  {
    hide Next, Inv;
    NextKeeps(c, f, w, TURN);
    if w.srv.stat == AckTx {
      AckAnswers(c, f, w);
    } else {
      StartAnswers(c, f, w);
    }
  }

  lemma AckAnswers(c: Cfg, f: seq<byte>, w: Sys)
    requires Setting(c) && Inv(c, f, w) && w.srv.stat == AckTx
    ensures var t := Next(c, f, w, TURN);
            Recoverable(c, f, t) && (t.srv.stat == DataRx || t.srv.stat == Finish)
  {
    hide Linked, Prefix, DataPkt, Encode, Overwrite, Storing, FinalBlock;
    var p := Ack(Num(w.srv.stage));
    assert p == AckOf(c, w.srv.stage);
    NewsOf(w.srv.sent, p, w.down);
    assert (w.down + [p])[|w.down|] == p;
  }

  lemma StartAnswers(c: Cfg, f: seq<byte>, w: Sys)
    requires Setting(c) && Inv(c, f, w) && (w.srv.stat == NeedInit || w.srv.stat == AckOptions)
    ensures var t := Next(c, f, w, TURN);
            && Recoverable(c, f, t)
            && (w.srv.stat == NeedInit ==> t.srv.stat == AckOptions)
            && (w.srv.stat == AckOptions ==> t.srv.stat == DataRx || t.srv.stat == AckTx)
  {
    hide Linked, Prefix, DataPkt, Encode, Overwrite, Storing, FinalBlock;
    NewsOf(w.srv.sent, Oack(c.opt), w.down);
  }

  lemma Reaches(c: Cfg, f: seq<byte>, w: Sys) returns (evs: seq<Event>)
    requires Setting(c) && Inv(c, f, w) && Recoverable(c, f, w)
    ensures AllCalm(evs) && Complete(c, f, RunFrom(c, f, w, evs))
    decreases match w.srv.stat case NeedInit => 3 case AckOptions => 2 case AckTx => 1 case _ => 0
  {
    hide RunFrom, Inv, Complete, Next;
    InvFits(c, f, w);
    if w.srv.stat == DataRx {
      evs := FromDataRx(c, f, w);
    } else if w.srv.stat == Finish {
      evs := FromFinish(c, f, w);
    } else {
      AnswerKeeps(c, f, w);
      var more := Reaches(c, f, Next(c, f, w, TURN));
      RunFirst(c, f, w, TURN, more);
      evs := [TURN] + more;
    }
  }

  lemma InvFits(c: Cfg, f: seq<byte>, w: Sys)
    requires Setting(c) && Inv(c, f, w)
    ensures w.srv.Fits() && !w.srv.crashed
  {
  }

  // --------------------------------------------------- what cannot be completed

  lemma LoseIn<T>(q: seq<T>, i: nat, x: T)
    ensures x in Lose(q, i) ==> x in q
    ensures x in Twice(q, i) ==> x in q
    ensures q != [] && x in q[1..] ==> x in q
  {
  }

  /** A client that is not at the block, and has no acknowledgement under way, stays
      where it is. */
  lemma ClientStays(c: Cfg, f: seq<byte>, w: Sys, e: nat)
    requires Setting(c) && w.srv.Fits() && e >= 1 && Linked(c, f, w, e) && w.at != e && AckOf(c, e - 1) !in w.down
    ensures ClientStep(c, f, w) == w.(down := if w.down == [] then [] else w.down[1..])
  {
    hide Phases, DataPkt, AckOf, Wanted;
    if w.down != [] {
      PhasesTake(w.down, AckOf(c, if e == 1 then 0 else e - 2), AckOf(c, e - 1));
      AcksDiffer(c, e);
      if e >= 2 {
        AcksDiffer(c, e - 1);
      }
    }
  }

  lemma PeersStay(c: Cfg, f: seq<byte>, w: Sys, ev: Event)
    requires Setting(c) && Inv(c, f, w) && !Recoverable(c, f, w) && !ev.Server? && !ev.Stranger?
    ensures !Recoverable(c, f, Next(c, f, w, ev))
  {
    hide Phases, DataPkt, AckOf, Linked, ClientStep, Prefix, FinalBlock, Storing, Lose, Twice, Num, Inv;
    InvFits(c, f, w);
    var e := w.srv.stage;
    if w.srv.stat == DataRx || (w.srv.stat == Finish && w.srv.last) {
      NotAtBlock(c, f, w);
      var p := AckOf(c, e - 1);
      match ev
      case ClientTakes =>
        ClientStays(c, f, w, e);
        LoseIn(w.down, 0, p);
      case LoseDown(i) => LoseIn(w.down, i, p);
      case TwiceDown(i) => LoseIn(w.down, i, p);
      case _ =>
    } else {
      ClientLeavesServer(c, f, w);
    }
  }

  lemma NotAtBlock(c: Cfg, f: seq<byte>, w: Sys)
    requires Setting(c) && Inv(c, f, w) && !Recoverable(c, f, w)
    requires w.srv.stat == DataRx || (w.srv.stat == Finish && w.srv.last)
    ensures w.srv.stage >= 1 && Linked(c, f, w, w.srv.stage) && w.at != w.srv.stage
  {
    hide Phases, DataPkt, AckOf, Linked, Prefix;
  }

  /** The block before, once more behind a wrap, ends the session. */
  lemma WrapEnds(c: Cfg, f: seq<byte>, w: Sys, expired: bool)
    requires Setting(c) && Inv(c, f, w) && !Recoverable(c, f, w) && w.srv.stat == DataRx && w.up != []
    ensures var t := ServerStep(c, w, FromClient(c, w.up[0], expired), w.up[1..]);
            t.srv.stat == Finish && !t.srv.last
  {
    hide Step, Phases, Prefix, Block, Accepts, RxStage;
    var e := w.srv.stage;
    NeighbourNumbers(e);
    PhasesTake(w.up, DataPkt(f, c.Blk(), e - 1), DataPkt(f, c.Blk(), e - 1));
    BlockSizes(f, c.Blk(), e - 1);
    RefusesNumber(c, w.srv, Num(e - 1), Block(f, c.Blk(), e - 1), expired);
  }

  lemma ServerStays(c: Cfg, f: seq<byte>, w: Sys, rx: Rx, expired: bool)
    requires Setting(c) && Inv(c, f, w) && !Recoverable(c, f, w)
    requires w.srv.stat == Retransmit ==> w.srv.retr >= c.limit
    requires rx.Nothing? || (rx.Packet? && rx.from != c.client)
    ensures !Recoverable(c, f, ServerStep(c, w, Ev(rx, expired), w.up))
  {
    hide Linked, Prefix, Step, AckOf, Clip, Relevant;
    NewsOf(w.srv.sent, Ack(0), w.down);
    if w.srv.stat == DataRx {
      if rx.Packet? {
        NotFromClient(c, w.srv.stat, rx.from, Clip(rx.bytes));
      }
      NothingForUs(c, w.srv, rx, expired);
    } else {
      EndsQuietly(c, w.srv, Ev(rx, expired));
    }
  }

  lemma EndsQuietly(c: Cfg, s: St, ev: Ev)
    requires c.Valid() && s.Fits() && !s.crashed
    requires || (s.stat == Retransmit && c.limit <= s.retr < WIRE - 1)
             || (s.stat == ErrorAndStop && !s.WasError()) || s.stat == Finish
    ensures var t := Step(c, s, ev);
            && t.sent == s.sent && t.stage == s.stage && t.last == s.last
            && t.stat == (if s.stat == Retransmit then ErrorAndStop else Finish)
  {
    hide Encode, Overwrite;
  }

  lemma StaysLost(c: Cfg, f: seq<byte>, w: Sys, ev: Event)
    requires Setting(c) && Inv(c, f, w) && !Recoverable(c, f, w) && !Resends(c, w, ev)
    ensures !Recoverable(c, f, Next(c, f, w, ev))
  {
    hide ServerStep, Recoverable, Linked, Prefix, FromClient;
    if ev.Server? && ev.deliver && w.up != [] && w.srv.stat == DataRx {
      WrapEnds(c, f, w, ev.expired);
      FinishLost(c, f, Next(c, f, w, ev));
    } else if ev.Server? {
      ServerStays(c, f, w, Nothing, ev.expired);
    } else if ev.Stranger? {
      if ev.from != c.client {
        ServerStays(c, f, w, Packet(ev.from, ev.bytes), ev.expired);
      }
    } else {
      PeersStay(c, f, w, ev);
    }
  }

  lemma FinishLost(c: Cfg, f: seq<byte>, w: Sys)
    requires c.Blk() > 0 && w.srv.stat == Finish && !w.srv.last
    ensures !Recoverable(c, f, w)
  {
  }

  lemma {:induction false} LostForGood(c: Cfg, f: seq<byte>, evs: seq<Event>, more: seq<Event>)
    requires Setting(c) && NoResend(c, f, evs + more) && !Recoverable(c, f, Run(c, f, evs))
    ensures !Complete(c, f, Run(c, f, evs + more))
    decreases |more|
  {
    hide RunFrom, Inv, Recoverable, Complete, NoResend;
    LostRun(c, f, evs, more);
    NotComplete(c, f, Run(c, f, evs + more));
  }

  lemma {:induction false} LostRun(c: Cfg, f: seq<byte>, evs: seq<Event>, more: seq<Event>)
    requires Setting(c) && NoResend(c, f, evs + more) && !Recoverable(c, f, Run(c, f, evs))
    ensures !Recoverable(c, f, Run(c, f, evs + more))
    decreases |more|
  {
    hide Next, Inv, Recoverable, Resends;
    if more == [] {
      assert evs + more == evs;
    } else {
      var front := more[..|more| - 1];
      assert (evs + more)[..|evs + more| - 1] == evs + front;
      LostRun(c, f, evs, front);
      InvariantHolds(c, f, evs + front);
      StaysLost(c, f, Run(c, f, evs + front), more[|more| - 1]);
    }
  }

  lemma NotComplete(c: Cfg, f: seq<byte>, w: Sys)
    requires c.Blk() > 0 && !Recoverable(c, f, w)
    ensures !Complete(c, f, w)
  {
  }

  // ------------------------------------------------------------- the theorem

  lemma NotRetransmitting(c: Cfg, f: seq<byte>, w: Sys)
    requires c.Blk() > 0 && Recoverable(c, f, w)
    ensures w.srv.stat != Retransmit
  {
  }

  /** The exact condition for a write to be completed from any state that a run
      without retransmissions reaches, by some continuation without retransmissions. */
  lemma {:induction false} RecoverableExactly(c: Cfg, f: seq<byte>, evs: seq<Event>)
    requires Setting(c) && NoResend(c, f, evs)
    ensures Recoverable(c, f, Run(c, f, evs)) <==>
            exists more: seq<Event> :: NoResend(c, f, evs + more) && Complete(c, f, Run(c, f, evs + more))
  {
    hide RunFrom, NoResend, Recoverable, Complete, NoResendFrom, Inv;
    var w := Run(c, f, evs);
    if Recoverable(c, f, w) {
      InvariantHolds(c, f, evs);
      NotRetransmitting(c, f, w);
      var more := Reaches(c, f, w);
      RunTwo(c, f, Init(), evs, more);
      CalmFrom(c, f, w, more);
      NoResendTwo(c, f, evs, more);
      assert NoResend(c, f, evs + more) && Complete(c, f, Run(c, f, evs + more));
    } else {
      forall more: seq<Event> | NoResend(c, f, evs + more)
        ensures !Complete(c, f, Run(c, f, evs + more))
      {
        LostForGood(c, f, evs, more);
      }
    }
  }

  /** A state from which a write cannot be completed: the answer to the request is
      lost. */
  lemma AnswerLost(c: Cfg, f: seq<byte>)
    requires Setting(c) && c.opt.WasSetAny()
    ensures var w := Run(c, f, [TURN, TURN, LoseDown(0)]);
            w.srv.stat == DataRx && !Recoverable(c, f, w)
  {
    hide Next, AckOf;
    HelloTurns(c, f);
    RunTwo(c, f, Init(), [TURN, TURN], [LoseDown(0)]);
    assert [TURN, TURN] + [LoseDown(0)] == [TURN, TURN, LoseDown(0)];
    var w := Run(c, f, [TURN, TURN]);
    RunOne(c, f, w, LoseDown(0));
    assert Next(c, f, w, LoseDown(0)) == w.(down := []) by {
      OneLost(c, f, w);
    }
  }

  lemma OneLost(c: Cfg, f: seq<byte>, w: Sys)
    requires Setting(c) && w.srv.Fits() && |w.down| == 1
    ensures Next(c, f, w, LoseDown(0)) == w.(down := [])
  {
  }
}
