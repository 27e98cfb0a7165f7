/** From which states a client can still get the whole file: the exact test, over every
    state a tame run can reach. */
module ReadRecovery {
  import opened Octets
  import opened DataFile
  import opened SessionModel
  import opened BlockSteps
  import opened Channels
  import opened ReadProtocol
  import opened ReadRuns

  /** The test: the client is done; or the session is about to send; or it waits and
      the client has the block, or the block is under way, or the session can be made
      to send it again: by the acknowledgement before, inside an epoch and before the
      last block, or by a timeout while a retry is left and the block is not the option
      acknowledgement. A session that sends nothing more needs the last block to be
      under way to a client that waits for it. */
  predicate Recoverable(c: Cfg, w: Sys)
    requires c.opening.Opened? && c.Blk() > 0
  {
    var s, n := w.srv.stage, FinalBlock(c, File(c));
    w.done ||
    match w.srv.stat
    case NeedInit => true
    case AckOptions => true
    case DataTx => true
    case AckRx =>
      || w.next == s + 1 || Msg(c, s) in w.down
      || (First(c) < s < n && Num(s) != 0) || (s >= 1 && Retriable(c, w.srv))
    case Retransmit => (s >= 1 && Retriable(c, w.srv)) || (s == n && LastUnderWay(c, w))
    case ErrorAndStop => LastUnderWay(c, w)
    case Finish => LastUnderWay(c, w)
    case _ => false
  }

  predicate LastUnderWay(c: Cfg, w: Sys)
    requires c.opening.Opened? && c.Blk() > 0
  {
    w.next == FinalBlock(c, File(c)) && Msg(c, w.next) in w.down
  }

  /** No event of a run that starts in `w` breaks the read. */
  ghost predicate TameFrom(c: Cfg, w: Sys, evs: seq<Event>)
    requires Setting(c) && w.srv.Fits()
  {
    evs == [] ||
    (TameFrom(c, w, evs[..|evs| - 1]) && !Breaks(c, RunFrom(c, w, evs[..|evs| - 1]), evs[|evs| - 1]))
  }

  lemma {:induction false} TameTwo(c: Cfg, w: Sys, a: seq<Event>, b: seq<Event>)
    requires Setting(c) && w.srv.Fits()
    ensures TameFrom(c, w, a + b) <==> TameFrom(c, w, a) && TameFrom(c, RunFrom(c, w, a), b)
    decreases |b|
  {
    hide Next, Breaks;
    if b == [] {
      assert a + b == a;
    } else {
      var front := b[..|b| - 1];
      TameTwo(c, w, a, front);
      RunTwo(c, w, a, front);
      assert (a + b)[..|a + b| - 1] == a + front;
    }
  }

  lemma {:induction false} TameAll(c: Cfg, evs: seq<Event>)
    requires Setting(c)
    ensures Tame(c, evs) <==> TameFrom(c, Init(c), evs)
  {
    hide Next, Breaks;
    if evs != [] {
      TameAll(c, evs[..|evs| - 1]);
    }
  }

  lemma {:induction false} TameKeeps(c: Cfg, w: Sys, evs: seq<Event>)
    requires Setting(c) && w.srv.Fits() && Inv(c, w) && TameFrom(c, w, evs)
    ensures Inv(c, RunFrom(c, w, evs))
  {
    hide Next, Inv, Breaks;
    if evs != [] {
      TameKeeps(c, w, evs[..|evs| - 1]);
      NextKeeps(c, RunFrom(c, w, evs[..|evs| - 1]), evs[|evs| - 1]);
    }
  }

  /** A run gets the client from `w` to the end of the file. */
  ghost predicate Gets(c: Cfg, w: Sys, evs: seq<Event>)
    requires Setting(c) && w.srv.Fits()
  {
    TameFrom(c, w, evs) && RunFrom(c, w, evs).done
  }

  lemma {:induction false} GetsThen(c: Cfg, w: Sys, a: seq<Event>, b: seq<Event>)
    requires Setting(c) && w.srv.Fits() && TameFrom(c, w, a) && Gets(c, RunFrom(c, w, a), b)
    ensures Gets(c, w, a + b)
  {
    hide RunFrom, TameFrom;
    RunTwo(c, w, a, b);
    TameTwo(c, w, a, b);
  }

  lemma {:induction false} OneEvent(c: Cfg, w: Sys, ev: Event)
    requires Setting(c) && w.srv.Fits()
    ensures RunFrom(c, w, [ev]) == Next(c, w, ev)
    ensures TameFrom(c, w, [ev]) <==> !Breaks(c, w, ev)
  {
    hide Next, Breaks;
    assert [ev][..0] == [];
  }

  lemma GetsFirst(c: Cfg, w: Sys, ev: Event, evs: seq<Event>)
    requires Setting(c) && w.srv.Fits() && !Breaks(c, w, ev) && Gets(c, Next(c, w, ev), evs)
    ensures Gets(c, w, [ev] + evs)
  {
    hide Next, Breaks, RunFrom, TameFrom;
    OneEvent(c, w, ev);
    GetsThen(c, w, [ev], evs);
  }

  lemma GetsNow(c: Cfg, w: Sys)
    requires Setting(c) && w.srv.Fits() && w.done
    ensures Gets(c, w, [])
  {
  }

  lemma InvFits(c: Cfg, w: Sys)
    requires Setting(c) && Inv(c, w)
    ensures w.srv.Fits() && !w.srv.crashed
  {
  }

  // ------------------------------------------------- what can be completed

  lemma {:induction false} LoseAllUp(c: Cfg, w: Sys) returns (evs: seq<Event>)
    requires Setting(c) && w.srv.Fits()
    ensures TameFrom(c, w, evs) && RunFrom(c, w, evs) == w.(up := [])
    decreases |w.up|
  {
    hide RunFrom, TameFrom;
    if w.up == [] {
      evs := [];
      NoEvents(c, w);
    } else {
      var w1 := Next(c, w, LoseUp(0));
      assert w1 == w.(up := w.up[1..]);
      var more := LoseAllUp(c, w1);
      OneEvent(c, w, LoseUp(0));
      RunTwo(c, w, [LoseUp(0)], more);
      TameTwo(c, w, [LoseUp(0)], more);
      evs := [LoseUp(0)] + more;
    }
  }

  lemma {:induction false} NoEvents(c: Cfg, w: Sys)
    requires Setting(c) && w.srv.Fits()
    ensures RunFrom(c, w, []) == w && TameFrom(c, w, [])
  {
  }

  lemma LoseFirstDown(c: Cfg, w: Sys)
    requires Setting(c) && w.srv.Fits() && w.down != []
    ensures Next(c, w, LoseDown(0)) == w.(down := w.down[1..]) && !Breaks(c, w, LoseDown(0))
  {
  }

  lemma {:induction false} LoseDownTo(c: Cfg, w: Sys, keep: nat) returns (evs: seq<Event>)
    requires Setting(c) && w.srv.Fits() && keep <= |w.down|
    ensures TameFrom(c, w, evs) && RunFrom(c, w, evs) == w.(down := w.down[|w.down| - keep..])
    decreases |w.down|
  {
    hide RunFrom, TameFrom, Next, Breaks;
    if |w.down| == keep {
      evs := [];
      NoEvents(c, w);
      assert w.down[0..] == w.down;
    } else {
      var w1 := w.(down := w.down[1..]);
      LoseFirstDown(c, w);
      var more := LoseDownTo(c, w1, keep);
      OneEvent(c, w, LoseDown(0));
      RunTwo(c, w, [LoseDown(0)], more);
      TameTwo(c, w, [LoseDown(0)], more);
      evs := [LoseDown(0)] + more;
      assert w.down[1..][|w.down| - 1 - keep..] == w.down[|w.down| - keep..];
    }
  }

  /** All is lost but the last `keep` packets on their way to the client. */
  lemma Emptied(c: Cfg, w: Sys, keep: nat) returns (evs: seq<Event>)
    requires Setting(c) && Inv(c, w) && w.srv.Fits() && keep <= |w.down|
    ensures var t := w.(up := [], down := w.down[|w.down| - keep..]);
            TameFrom(c, w, evs) && RunFrom(c, w, evs) == t && Inv(c, t)
  {
    hide RunFrom, TameFrom, Next, Inv;
    var a := LoseAllUp(c, w);
    var b := LoseDownTo(c, w.(up := []), keep);
    RunTwo(c, w, a, b);
    TameTwo(c, w, a, b);
    evs := a + b;
    TameKeeps(c, w, evs);
  }

  lemma {:induction false} FromAcked(c: Cfg, w: Sys, n: nat) returns (evs: seq<Event>)
    requires Setting(c) && Acked(c, w, n)
    ensures w.srv.Fits() && Gets(c, w, evs)
    decreases FinalBlock(c, File(c)) - n
  {
    hide RunFrom, Acked, Gets, TameFrom, FinalBlock;
    AckedFits(c, w, n);
    AckedWhere(c, w, n);
    if n == FinalBlock(c, File(c)) {
      evs := [];
      GetsNow(c, w);
    } else {
      RoundSends(c, w, n);
      RoundTame(c, w);
      var more := FromAcked(c, RunFrom(c, w, ROUND), n + 1);
      GetsThen(c, w, ROUND, more);
      evs := ROUND + more;
    }
  }

  lemma AckedWhere(c: Cfg, w: Sys, n: nat)
    requires Setting(c) && Acked(c, w, n)
    ensures n <= FinalBlock(c, File(c)) && (w.done <==> n == FinalBlock(c, File(c))) && w.srv.stat == AckRx
  {
  }

  /** Turns in which the timer does not expire are tame. */
  lemma {:induction false} RoundTame(c: Cfg, w: Sys)
    requires Setting(c) && w.srv.Fits() && w.srv.stat != Retransmit
    ensures TameFrom(c, w, ROUND)
  {
    hide Next, Breaks, RunFrom, TameFrom;
    CalmNext(c, w, DELIVERY);
    var w1 := Next(c, w, DELIVERY);
    CalmNext(c, w1, TURN);
    var w2 := Next(c, w1, TURN);
    CalmNext(c, w2, TAKE);
    OneEvent(c, w, DELIVERY);
    OneEvent(c, w1, TURN);
    OneEvent(c, w2, TAKE);
    TameTwo(c, w, [DELIVERY], [TURN]);
    RunTwo(c, w, [DELIVERY], [TURN]);
    TameTwo(c, w, [DELIVERY] + [TURN], [TAKE]);
    assert [DELIVERY] + [TURN] + [TAKE] == ROUND;
  }

  /** The client has the block: it acknowledges it once more. */
  lemma ClientHasBlock(c: Cfg, w: Sys) returns (evs: seq<Event>)
    requires Setting(c) && Inv(c, w) && w.srv.stat == AckRx && w.next == w.srv.stage + 1
    ensures w.srv.Fits() && Gets(c, w, evs)
  {
    hide RunFrom, Gets, TameFrom, Linked, ClientFine, Loaded, Next;
    var s := w.srv.stage;
    var a := Emptied(c, w, 0);
    var w1 := w.(up := [], down := []);
    assert w.down[|w.down| - 0..] == [];
    var w2 := Next(c, w1, ClientResends);
    AcksAgain(c, w1);
    NextKeeps(c, w1, ClientResends);
    var more := FromAcked(c, w2, s);
    GetsFirst(c, w1, ClientResends, more);
    GetsThen(c, w, a, [ClientResends] + more);
    evs := a + ([ClientResends] + more);
  }

  lemma AcksAgain(c: Cfg, w: Sys)
    requires Setting(c) && w.srv.Fits() && w.next > First(c) && w.up == []
    ensures Next(c, w, ClientResends) == w.(up := [AckOf(w.next - 1)]) && !Breaks(c, w, ClientResends)
  {
  }

  /** The block is under way: the client takes it. */
  lemma BlockUnderWay(c: Cfg, w: Sys) returns (evs: seq<Event>)
    requires Setting(c) && Inv(c, w) && w.srv.stat == AckRx && w.next == w.srv.stage && Msg(c, w.next) in w.down
    ensures w.srv.Fits() && Gets(c, w, evs)
  {
    hide RunFrom, Gets, TameFrom, Linked, ClientFine, Loaded, Next, Msg;
    var s := w.srv.stage;
    var a := AloneUnderWay(c, w);
    var w1 := w.(up := [], down := [Msg(c, s)]);
    TakeAcks(c, w1, s);
    var w2 := Next(c, w1, TAKE);
    var more := FromAcked(c, w2, s);
    PeersAreTame(c, w1, TAKE);
    GetsFirst(c, w1, TAKE, more);
    GetsThen(c, w, a, [TAKE] + more);
    evs := a + ([TAKE] + more);
  }

  lemma PeersAreTame(c: Cfg, w: Sys, ev: Event)
    requires !ev.Server? && !ev.Stranger?
    ensures !Breaks(c, w, ev)
  {
  }

  lemma AloneUnderWay(c: Cfg, w: Sys) returns (evs: seq<Event>)
    requires Setting(c) && Inv(c, w) && w.srv.Fits() && ClientFine(c, w) && Msg(c, w.next) in w.down
    ensures var t := w.(up := [], down := [Msg(c, w.next)]);
            TameFrom(c, w, evs) && RunFrom(c, w, evs) == t && Inv(c, t)
  {
    hide RunFrom, TameFrom, Linked, Loaded, Next, Msg, Phases, Inv, Prefix;
    NewerIsLast(w.down, Msg(c, if w.next == First(c) then w.next else w.next - 1), Msg(c, w.next));
    evs := Emptied(c, w, 1);
    assert w.down[|w.down| - 1..] == [Msg(c, w.next)];
  }

  /** Whatever the session does, the client takes the last block. */
  lemma TakesLast(c: Cfg, w: Sys) returns (evs: seq<Event>)
    requires Setting(c) && Inv(c, w) && w.srv.Fits() && ClientFine(c, w) && LastUnderWay(c, w)
    ensures Gets(c, w, evs)
  {
    hide RunFrom, TameFrom, Linked, Loaded, Next, Msg, ClientFine, Inv, Gets, ClientStep;
    var a := AloneUnderWay(c, w);
    var w1 := w.(up := [], down := [Msg(c, w.next)]);
    LastTaken(c, w1) by {
      FineAlone(c, w);
    }
    PeersAreTame(c, w1, TAKE);
    GetsNow(c, Next(c, w1, TAKE));
    GetsFirst(c, w1, TAKE, []);
    GetsThen(c, w, a, [TAKE] + []);
    evs := a + ([TAKE] + []);
  }

  lemma FineAlone(c: Cfg, w: Sys)
    requires Setting(c) && ClientFine(c, w) && LastUnderWay(c, w)
    ensures ClientFine(c, w.(up := [], down := [Msg(c, w.next)]))
  {
    hide Msg, Prefix;
  }

  lemma LastTaken(c: Cfg, w: Sys)
    requires Setting(c) && w.srv.Fits() && ClientFine(c, w)
    requires w.next == FinalBlock(c, File(c)) && w.down == [Msg(c, w.next)]
    ensures Next(c, w, TAKE).done
  {
    hide Msg, Prefix, Phases, ClientStep, FinalBlock;
    AcceptFine(c, w, false);
  }

  lemma FromDataTx(c: Cfg, w: Sys) returns (evs: seq<Event>)
    requires Setting(c) && Inv(c, w) && w.srv.stat == DataTx
    ensures w.srv.Fits() && Gets(c, w, evs)
  {
    hide RunFrom, Gets, TameFrom, Loaded, Next, Msg, ClientFine, Linked, Breaks;
    CalmNext(c, w, TURN);
    NextKeeps(c, w, TURN);
    var t := Next(c, w, TURN);
    Sends(c, w);
    LinkedWhere(c, t);
    var more;
    if t.next == t.srv.stage {
      more := BlockUnderWay(c, t);
    } else {
      more := ClientHasBlock(c, t);
    }
    GetsFirst(c, w, TURN, more);
    evs := [TURN] + more;
  }

  lemma LinkedWhere(c: Cfg, w: Sys)
    requires Setting(c) && Inv(c, w) && (w.srv.stat == AckRx || w.srv.stat == DataTx || w.srv.stat == Retransmit)
    ensures w.next == w.srv.stage || w.next == w.srv.stage + 1
    ensures ClientFine(c, w) && First(c) <= w.srv.stage <= FinalBlock(c, File(c))
  {
    hide Phases, Msg, Loaded, ClientFine;
  }

  lemma Sends(c: Cfg, w: Sys)
    requires Setting(c) && Inv(c, w) && w.srv.stat == DataTx
    ensures var t := Next(c, w, TURN);
            t.srv.stat == AckRx && t.srv.stage == w.srv.stage && t.next == w.next && Msg(c, w.srv.stage) in t.down
  {
    hide Step, Linked, ClientFine, Block, WindowClosed, Loaded;
    var n := w.srv.stage;
    SingleWindow(c, n);
    SendsBlock(c, w.srv, Ev(Nothing, false), n);
    NewsOf(w.srv.sent, Msg(c, n), w.down);
    assert (w.down + [Msg(c, n)])[|w.down|] == Msg(c, n);
  }

  /** The acknowledgement before makes the session send the block again. */
  lemma OldAckHelps(c: Cfg, w: Sys) returns (evs: seq<Event>)
    requires Setting(c) && Inv(c, w) && w.srv.stat == AckRx && w.next == w.srv.stage
    requires First(c) < w.srv.stage < FinalBlock(c, File(c)) && Num(w.srv.stage) != 0
    ensures w.srv.Fits() && Gets(c, w, evs)
  {
    hide RunFrom, Gets, TameFrom, Linked, ClientFine, Loaded, Next, Breaks, FinalBlock, AckOf;
    var a := Emptied(c, w, 0);
    var w1 := w.(up := [], down := []);
    assert w.down[|w.down| - 0..] == [];
    AcksAgain(c, w1);
    NextKeeps(c, w1, ClientResends);
    var w2 := Next(c, w1, ClientResends);
    CalmNext(c, w2, DELIVERY);
    OldAckDelivered(c, w2);
    var w3 := Next(c, w2, DELIVERY);
    var more := FromDataTx(c, w3);
    GetsFirst(c, w2, DELIVERY, more);
    GetsFirst(c, w1, ClientResends, [DELIVERY] + more);
    GetsThen(c, w, a, [ClientResends] + ([DELIVERY] + more));
    evs := a + ([ClientResends] + ([DELIVERY] + more));
  }

  lemma OldAckDelivered(c: Cfg, w: Sys)
    requires Setting(c) && Inv(c, w) && w.srv.stat == AckRx
    requires First(c) < w.srv.stage < FinalBlock(c, File(c)) && Num(w.srv.stage) != 0
    requires w.up == [AckOf(w.srv.stage - 1)]
    ensures Inv(c, Next(c, w, DELIVERY)) && Next(c, w, DELIVERY).srv.stat == DataTx
  {
    hide ServerStep, Linked, ClientFine, Loaded, AckOf, FinalBlock;
    OldAckKeeps(c, w, false);
  }

  /** A retry is left: the session sends the block again. */
  lemma FromRetransmit(c: Cfg, w: Sys) returns (evs: seq<Event>)
    requires Setting(c) && Inv(c, w) && w.srv.stat == Retransmit && w.srv.stage >= 1 && Retriable(c, w.srv)
    ensures w.srv.Fits() && Gets(c, w, evs)
  {
    hide RunFrom, Gets, TameFrom, Linked, ClientFine, Loaded, Next;
    assert !Breaks(c, w, TURN);
    NextKeeps(c, w, TURN);
    RetryTurn(c, w);
    var more := FromDataTx(c, Next(c, w, TURN));
    GetsFirst(c, w, TURN, more);
    evs := [TURN] + more;
  }

  lemma RetryTurn(c: Cfg, w: Sys)
    requires Setting(c) && w.srv.Fits() && !w.srv.crashed && w.srv.stat == Retransmit && Retriable(c, w.srv)
    ensures Next(c, w, TURN).srv.stat == DataTx
  {
  }

  lemma TimeoutHelps(c: Cfg, w: Sys) returns (evs: seq<Event>)
    requires Setting(c) && Inv(c, w) && w.srv.stat == AckRx && w.srv.stage >= 1 && Retriable(c, w.srv)
    ensures w.srv.Fits() && Gets(c, w, evs)
  {
    hide RunFrom, Gets, TameFrom, Linked, ClientFine, Loaded, Next;
    assert !Breaks(c, w, TIMEOUT);
    NextKeeps(c, w, TIMEOUT);
    TimeoutTurn(c, w);
    var more := FromRetransmit(c, Next(c, w, TIMEOUT));
    GetsFirst(c, w, TIMEOUT, more);
    evs := [TIMEOUT] + more;
  }

  lemma TimeoutTurn(c: Cfg, w: Sys)
    requires Setting(c) && w.srv.Fits() && !w.srv.crashed && w.srv.stat == AckRx
    ensures Next(c, w, TIMEOUT).srv == w.srv.(stat := Retransmit)
  {
    hide Step;
    NothingForUs(c, w.srv, Nothing, true);
  }

  lemma FromAckRx(c: Cfg, w: Sys) returns (evs: seq<Event>)
    requires Setting(c) && Inv(c, w) && Recoverable(c, w) && w.srv.stat == AckRx && !w.done
    ensures w.srv.Fits() && Gets(c, w, evs)
  {
    hide RunFrom, Gets, TameFrom, Inv, Msg, FinalBlock;
    LinkedWhere(c, w);
    if w.next == w.srv.stage + 1 {
      evs := ClientHasBlock(c, w);
    } else if Msg(c, w.srv.stage) in w.down {
      evs := BlockUnderWay(c, w);
    } else if w.srv.stage >= 1 && Retriable(c, w.srv) {
      evs := TimeoutHelps(c, w);
    } else {
      evs := OldAckHelps(c, w);
    }
  }

  /** The first turns lead to a state that can be completed. */
  lemma StartTurn(c: Cfg, w: Sys)
    requires Setting(c) && Inv(c, w) && (w.srv.stat == NeedInit || w.srv.stat == AckOptions)
    ensures var t := Next(c, w, TURN);
            && Inv(c, t) && Recoverable(c, t) && !t.done
            && (w.srv.stat == NeedInit ==> t.srv.stat == AckOptions)
            && (w.srv.stat == AckOptions ==> t.srv.stat == AckRx || t.srv.stat == DataTx)
  {
    hide Linked, ClientFine, Loaded, Encode, Overwrite, Breaks, FinalBlock;
    CalmNext(c, w, TURN);
    NextKeeps(c, w, TURN);
    NewsOf(w.srv.sent, Oack(c.opt), w.down);
  }

  lemma Reaches(c: Cfg, w: Sys) returns (evs: seq<Event>)
    requires Setting(c) && Inv(c, w) && Recoverable(c, w)
    ensures w.srv.Fits() && Gets(c, w, evs)
    decreases match w.srv.stat case NeedInit => 2 case AckOptions => 1 case _ => 0
  {
    hide RunFrom, Gets, TameFrom, Inv, Msg, FinalBlock, Next, Breaks;
    InvFits(c, w);
    if w.done {
      evs := [];
      GetsNow(c, w);
    } else if w.srv.stat == AckRx {
      evs := FromAckRx(c, w);
    } else if w.srv.stat == DataTx {
      evs := FromDataTx(c, w);
    } else if w.srv.stat == NeedInit || w.srv.stat == AckOptions {
      StartTurn(c, w);
      CalmNext(c, w, TURN);
      var more := Reaches(c, Next(c, w, TURN));
      GetsFirst(c, w, TURN, more);
      evs := [TURN] + more;
    } else if w.srv.stat == Retransmit && w.srv.stage >= 1 && Retriable(c, w.srv) {
      evs := FromRetransmit(c, w);
    } else {
      FineAtEnd(c, w);
      evs := TakesLast(c, w);
    }
  }

  lemma FineAtEnd(c: Cfg, w: Sys)
    requires Setting(c) && Inv(c, w)
    requires w.srv.stat == Retransmit || w.srv.stat == ErrorAndStop || w.srv.stat == Finish
    ensures ClientFine(c, w)
  {
    hide ClientFine, Linked, Loaded;
  }

  // --------------------------------------------------- what cannot be completed

  lemma StillNotIn<T>(q: seq<T>, i: nat, x: T)
    ensures x !in q ==> x !in Lose(q, i) && x !in Twice(q, i)
    ensures x !in q && q != [] ==> x !in q[1..]
  {
  }

  lemma AllCopies<T>(q: seq<T>, a: T, b: T)
    requires Phases(q, a, a) && a != b
    ensures b !in q
  {
  }

  /** A step of the client: it stays and its channel gets shorter, or it takes the
      block it waits for, and no copy of the next one is under way. */
  lemma ClientStepWhere(c: Cfg, w: Sys, reack: bool)
    requires Setting(c) && ClientFine(c, w) && !w.done
    ensures var t := ClientStep(c, w, reack);
            && t.srv == w.srv
            && (|| (t.next == w.next && t.done == w.done && (w.down == [] || t.down == w.down[1..]) &&
                    (w.down == [] ==> t.down == []))
                || (&& Msg(c, w.next) in w.down && t.next == w.next + 1 && Msg(c, t.next) !in t.down
                    && (t.done <==> w.next == FinalBlock(c, File(c)))))
  {
    hide Phases, Msg, Prefix, AckOf, ClientStep, FinalBlock;
    if w.down == [] {
      EmptyTake(c, w, reack);
    } else {
      HeadOfDown(c, w);
      if w.down[0] == Msg(c, w.next) {
        AcceptFine(c, w, reack);
        MsgsDiffer(c, w.next + 1);
        AllCopies(ClientStep(c, w, reack).down, Msg(c, w.next), Msg(c, w.next + 1));
      } else {
        IgnoreFine(c, w, reack);
      }
    }
  }

  /** While the session rests, a state that cannot be completed stays one. */
  lemma PeersStay(c: Cfg, w: Sys, ev: Event)
    requires Setting(c) && Inv(c, w) && !Recoverable(c, w) && !ev.Server? && !ev.Stranger?
    ensures !Recoverable(c, Next(c, w, ev))
  {
    hide Phases, Msg, Prefix, AckOf, ClientStep, FinalBlock, ClientFine, Linked, Loaded, Retriable;
    LostWhere(c, w);
    var a, b := Msg(c, w.srv.stage), Msg(c, w.next);
    match ev
    case ClientTakes(reack) =>
      ClientStepWhere(c, w, reack);
      StillNotIn(w.down, 0, a);
      StillNotIn(w.down, 0, b);
    case LoseDown(i) =>
      StillNotIn(w.down, i, a);
      StillNotIn(w.down, i, b);
    case TwiceDown(i) =>
      StillNotIn(w.down, i, a);
      StillNotIn(w.down, i, b);
    case _ =>
  }

  lemma LostWhere(c: Cfg, w: Sys)
    requires Setting(c) && Inv(c, w) && !Recoverable(c, w)
    ensures w.srv.stat == AckRx || w.srv.stat == Retransmit || w.srv.stat == ErrorAndStop || w.srv.stat == Finish
    ensures ClientFine(c, w) && !w.done && w.srv.Fits() && !w.srv.crashed
    ensures w.srv.stat == AckRx ==> w.next == w.srv.stage && First(c) <= w.srv.stage <= FinalBlock(c, File(c))
    ensures w.srv.stat == Retransmit ==>
              w.next == w.srv.stage || (w.next == w.srv.stage + 1 && Msg(c, w.next) !in w.down)
    ensures w.srv.stat == AckRx || w.srv.stat == Retransmit ==> Linked(c, w, w.srv.stage)
    ensures w.srv.stat == ErrorAndStop ==> !w.srv.WasError()
  {
    hide Phases, Msg, Prefix, AckOf, FinalBlock, ClientFine, Loaded;
    var s := w.srv.stage;
    if w.srv.stat == Retransmit && w.next == s + 1 {
      MsgsDiffer(c, s + 1);
      AllCopies(w.down, Msg(c, s), Msg(c, s + 1));
    }
  }

  /** An acknowledgement only ends the session. */
  lemma DeliveryStays(c: Cfg, w: Sys, expired: bool)
    requires Setting(c) && Inv(c, w) && !Recoverable(c, w) && w.srv.stat == AckRx && w.up != []
    ensures !Recoverable(c, ServerStep(c, w, FromClient(c, w.up[0], expired), w.up[1..]))
  {
    hide Step, Phases, Prefix, AckOf, FinalBlock, ClientFine, Loaded, Msg, Accepts, RxStage;
    LostWhere(c, w);
    var s := w.srv.stage;
    HeadOfUp(c, w, s);
    OldAckKeeps(c, w, expired);
    OldAckSends(c, w, expired);
  }

  lemma OldAckSends(c: Cfg, w: Sys, expired: bool)
    requires Setting(c) && Inv(c, w) && w.srv.stat == AckRx && w.srv.stage >= 1 && w.up != []
    requires w.up[0] == AckOf(w.srv.stage - 1)
    ensures ServerStep(c, w, FromClient(c, w.up[0], expired), w.up[1..]).down == w.down
  {
    hide Step, Linked, ClientFine, Loaded, Accepts, RxStage;
    TakesAck(c, w.srv, Num(w.srv.stage - 1), expired);
    NewsOf(w.srv.sent, Ack(0), w.down);
  }

  lemma ServerStays(c: Cfg, w: Sys, rx: Rx, expired: bool)
    requires Setting(c) && Inv(c, w) && !Recoverable(c, w) && !Derails(c, w.srv)
    requires rx.Nothing? || (rx.Packet? && rx.from != c.client)
    ensures !Recoverable(c, ServerStep(c, w, Ev(rx, expired), w.up))
  {
    hide Step, Prefix, AckOf, FinalBlock, ClientFine, Loaded, Msg, Linked, Clip, Relevant, Inv;
    LostWhere(c, w);
    NewsOf(w.srv.sent, Ack(0), w.down);
    if w.srv.stat == AckRx {
      if rx.Packet? {
        NotFromClient(c, w.srv.stat, rx.from, Clip(rx.bytes));
      }
      NothingForUs(c, w.srv, rx, expired);
    } else {
      EndsQuietly(c, w.srv, Ev(rx, expired));
    }
  }

  lemma EndsQuietly(c: Cfg, s: St, ev: Ev)
    requires c.Valid() && s.Fits() && !s.crashed
    requires || (s.stat == Retransmit && !Retriable(c, s))
             || (s.stat == ErrorAndStop && !s.WasError()) || s.stat == Finish
    ensures var t := Step(c, s, ev);
            t.sent == s.sent && t.stage == s.stage && (t.stat == ErrorAndStop || t.stat == Finish)
  {
    hide Encode, Overwrite;
  }

  lemma StaysLost(c: Cfg, w: Sys, ev: Event)
    requires Setting(c) && Inv(c, w) && !Recoverable(c, w) && !Breaks(c, w, ev)
    ensures !Recoverable(c, Next(c, w, ev))
  {
    hide ServerStep, Recoverable, Inv, FromClient, Derails, Clip;
    InvFits(c, w);
    if ev.Server? && ev.deliver && w.up != [] && w.srv.stat == AckRx {
      DeliveryStays(c, w, ev.expired);
    } else if ev.Server? {
      ServerStays(c, w, Nothing, ev.expired);
    } else if ev.Stranger? {
      if ev.from != c.client {
        ServerStays(c, w, Packet(ev.from, ev.bytes), ev.expired);
      }
    } else {
      PeersStay(c, w, ev);
    }
  }

  lemma {:induction false} LostRun(c: Cfg, evs: seq<Event>, more: seq<Event>)
    requires Setting(c) && Tame(c, evs + more) && !Recoverable(c, Run(c, evs))
    ensures !Recoverable(c, Run(c, evs + more))
    decreases |more|
  {
    hide Next, Inv, Recoverable, Breaks;
    if more == [] {
      assert evs + more == evs;
    } else {
      var front := more[..|more| - 1];
      assert (evs + more)[..|evs + more| - 1] == evs + front;
      LostRun(c, evs, front);
      InvariantHolds(c, evs + front);
      StaysLost(c, Run(c, evs + front), more[|more| - 1]);
    }
  }

  // ------------------------------------------------------------- the theorem

  /** The exact condition for a client to get the whole file from any state that a tame
      run reaches, by some tame continuation. */
  lemma {:induction false} RecoverableExactly(c: Cfg, evs: seq<Event>)
    requires Setting(c) && Tame(c, evs)
    ensures Recoverable(c, Run(c, evs)) <==>
            exists more: seq<Event> :: Tame(c, evs + more) && Run(c, evs + more).done
  {
    hide RunFrom, Tame, TameFrom, Recoverable, Inv;
    var w := Run(c, evs);
    if Recoverable(c, w) {
      InvariantHolds(c, evs);
      var more := Reaches(c, w);
      RunTwo(c, Init(c), evs, more);
      TameAll(c, evs);
      TameAll(c, evs + more);
      TameTwo(c, Init(c), evs, more);
      assert Tame(c, evs + more) && Run(c, evs + more).done;
    } else {
      forall more: seq<Event> | Tame(c, evs + more)
        ensures !Run(c, evs + more).done
      {
        LostRun(c, evs, more);
        DoneIsRecoverable(c, Run(c, evs + more));
      }
    }
  }

  lemma DoneIsRecoverable(c: Cfg, w: Sys)
    requires c.opening.Opened? && c.Blk() > 0
    ensures w.done ==> Recoverable(c, w)
  {
  }

  /** A state from which a read cannot be completed: the option acknowledgement is
      lost. */
  lemma ReplyLost(c: Cfg)
    requires Setting(c) && c.opt.WasSetAny()
    ensures var w := Run(c, [TURN, TURN, LoseDown(0)]);
            w.srv.stat == AckRx && !Recoverable(c, w)
  {
    hide Next, Inv;
    FirstTurns(c);
    RunThree(c, Init(c), TURN, TURN, LoseDown(0));
    OneLost(c, Next(c, Next(c, Init(c), TURN), TURN));
  }

  lemma OneLost(c: Cfg, w: Sys)
    requires Setting(c) && c.opt.WasSetAny() && Sent(c, w, 0)
    ensures var t := Next(c, w, LoseDown(0));
            t.srv.stat == AckRx && !Recoverable(c, t)
  {
    hide Linked, Loaded, Phases;
  }
}
