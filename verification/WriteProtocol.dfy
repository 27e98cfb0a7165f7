/** A write session against a lock-step client (sections 2 and 6 of RFC 1350),
    over channels that lose and duplicate, for windows of one block. */
module WriteProtocol {
  import opened Octets
  import opened Requests
  import opened DataFile
  import opened SessionModel
  import opened SessionLaws
  import opened BlockSteps
  import opened Channels

  /** The session, the client and the two channels between them. The client's
      `at` is 0 while it waits for the answer to its request, then the number of
      the block it has sent and wants acknowledged; beyond the last block it is
      done. */
  datatype Sys = Sys(srv: St, at: nat, up: seq<Pkt>, down: seq<Pkt>)

  datatype Event =
    | Server(deliver: bool, expired: bool)
    | Stranger(from: Addr, bytes: seq<byte>, expired: bool)
    | ClientTakes
    | ClientResends
    | LoseUp(i: nat)
    | LoseDown(i: nat)
    | TwiceUp(i: nat)
    | TwiceDown(i: nat)

  /** A write request whose file can be created, with blocks of at least a byte and
      no window above one. */
  ghost predicate Setting(c: Cfg) {
    c.Valid() && c.opt.req == SrvReq.Write && c.opening.Opened? && c.Blk() > 0 && c.Window() == 1
  }

  /** What acknowledges block `n`; what acknowledges the request comes first. */
  function AckOf(c: Cfg, n: nat): (r: Pkt) {
    if n > 0 then Ack(Num(n)) else if c.opt.WasSetAny() then Oack(c.opt) else Ack(0)
  }

  function Init(): (r: Sys) {
    Sys(Start(), 0, [], [])
  }

  /** The session makes one step; what it sends enters the channel to the client. */
  function ServerStep(c: Cfg, w: Sys, ev: Ev, up: seq<Pkt>): (r: Sys)
    requires c.Valid() && w.srv.Fits()
    ensures r.srv.Fits()
  {
    var t := Step(c, w.srv, ev);
    w.(srv := t, up := up, down := w.down + News(w.srv.sent, t.sent))
  }

  /** The client's move on the packet at the head of its channel: the wanted
      acknowledgement lets it send the next block, anything else is ignored. */
  function ClientStep(c: Cfg, f: seq<byte>, w: Sys): (r: Sys)
    requires c.Blk() > 0
  {
    if w.down == [] then w
    else
      var w1 := w.(down := w.down[1..]);
      if w.at <= FinalBlock(c, f) && Wanted(w.at, w.down[0]) then
        w1.(at := w.at + 1, up := w.up + if w.at < FinalBlock(c, f) then [DataPkt(f, c.Blk(), w.at + 1)] else [])
      else w1
  }

  /** The packets a client at block `n` takes for its acknowledgement. */
  predicate Wanted(n: nat, p: Pkt) {
    p == Ack(Num(n)) || (n == 0 && p.Oack?)
  }

  function Next(c: Cfg, f: seq<byte>, w: Sys, ev: Event): (r: Sys)
    requires Setting(c) && w.srv.Fits()
    ensures r.srv.Fits()
  {
    match ev
    case Server(deliver, expired) =>
      if deliver && w.up != [] && w.srv.stat == DataRx
      then ServerStep(c, w, FromClient(c, w.up[0], expired), w.up[1..])
      else ServerStep(c, w, Ev(Nothing, expired), w.up)
    case Stranger(from, bytes, expired) =>
      if from != c.client then ServerStep(c, w, Ev(Packet(from, bytes), expired), w.up) else w
    case ClientTakes => ClientStep(c, f, w)
    case ClientResends =>
      if 1 <= w.at <= FinalBlock(c, f) then w.(up := w.up + [DataPkt(f, c.Blk(), w.at)]) else w
    case LoseUp(i) => w.(up := Lose(w.up, i))
    case LoseDown(i) => w.(down := Lose(w.down, i))
    case TwiceUp(i) => w.(up := Twice(w.up, i))
    case TwiceDown(i) => w.(down := Twice(w.down, i))
  }

  /** The system after a run of events that starts in `w`. */
  function RunFrom(c: Cfg, f: seq<byte>, w: Sys, evs: seq<Event>): (r: Sys)
    requires Setting(c) && w.srv.Fits()
    ensures r.srv.Fits()
  {
    if evs == [] then w else Next(c, f, RunFrom(c, f, w, evs[..|evs| - 1]), evs[|evs| - 1])
  }

  function Run(c: Cfg, f: seq<byte>, evs: seq<Event>): (r: Sys)
    requires Setting(c)
    ensures r.srv.Fits()
  {
    RunFrom(c, f, Init(), evs)
  }

  // ---------------------------------------------------------------- invariant

  /** The block the session waits for, or will wait for next. */
  function Awaited(s: St): (r: nat) {
    if s.stat == AckTx then s.stage + 1 else s.stage
  }

  /** Client and session are at most one block apart, and the channels carry
      copies of the block and the acknowledgement that are under way, after copies
      of the ones before. */
  ghost predicate Linked(c: Cfg, f: seq<byte>, w: Sys, e: nat)
    requires c.Blk() > 0 && e >= 1
  {
    if w.at == e then
      && Phases(w.up, DataPkt(f, c.Blk(), if e == 1 then 1 else e - 1), DataPkt(f, c.Blk(), e))
      && Phases(w.down, AckOf(c, e - 1), AckOf(c, e - 1))
    else
      && w.at == e - 1
      && (if w.at == 0 then w.up == [] else Phases(w.up, DataPkt(f, c.Blk(), w.at), DataPkt(f, c.Blk(), w.at)))
      && Phases(w.down, AckOf(c, if e == 1 then 0 else e - 2), AckOf(c, e - 1))
  }

  ghost predicate Storing(c: Cfg, f: seq<byte>, s: St, e: nat)
    requires c.Blk() > 0
  {
    && 1 <= e <= FinalBlock(c, f) + 1
    && s.file == FileSt(SrvReq.Write, Prefix(f, c.Blk(), e - 1), false)
    && s.retr == 0
  }

  ghost predicate Inv(c: Cfg, f: seq<byte>, w: Sys)
    requires Setting(c)
  {
    var s, n := w.srv, FinalBlock(c, f);
    && s.Fits() && !s.crashed
    && match s.stat
       case NeedInit => s == Start() && w == Init()
       case AckOptions =>
         && w == Init().(srv := s) && s.stage == 0 && s.retr == 0 && !s.last && !s.WasError() && s.sent == []
         && s.file == FileSt(SrvReq.Write, [], false)
       case DataRx =>
         && Storing(c, f, s, s.stage) && s.stage <= n && Linked(c, f, w, s.stage)
         && !s.last && !s.WasError()
       case Retransmit =>
         && Storing(c, f, s, s.stage) && s.stage <= n && Linked(c, f, w, s.stage)
         && !s.last && !s.WasError()
       case AckTx =>
         && Storing(c, f, s, s.stage + 1) && Linked(c, f, w, s.stage + 1)
         && (s.last <==> s.stage == n) && !s.WasError()
         && (s.stage == 0 ==> !c.opt.WasSetAny())
       case Finish =>
         && Storing(c, f, s.(retr := 0), s.stage) && Linked(c, f, w, s.stage)
         && (s.last <==> s.stage == n + 1)
         && (s.WasError() ==> WIRE <= s.stage <= n)
       case ErrorAndStop =>
         && Storing(c, f, s.(retr := 0), s.stage) && s.stage <= n && Linked(c, f, w, s.stage)
         && !s.last && !s.WasError()
       case _ => false
  }

  lemma DataPktsDiffer(c: Cfg, f: seq<byte>, e: nat)
    requires e >= 2
    ensures DataPkt(f, c.Blk(), e - 1) != DataPkt(f, c.Blk(), e)
  {
    NeighbourNumbers(e);
  }

  lemma AcksDiffer(c: Cfg, n: nat)
    requires n >= 1
    ensures AckOf(c, n - 1) != AckOf(c, n)
    ensures !Wanted(n, AckOf(c, n - 1))
    ensures Wanted(n, AckOf(c, n)) && Wanted(0, AckOf(c, 0))
  {
    NeighbourNumbers(n);
  }

  // ------------------------------------------------------- the client's moves

  lemma NetworkKeeps(c: Cfg, f: seq<byte>, w: Sys, e: nat, i: nat)
    requires c.Blk() > 0 && e >= 1 && Linked(c, f, w, e)
    ensures Linked(c, f, w.(up := Lose(w.up, i)), e)
    ensures Linked(c, f, w.(up := Twice(w.up, i)), e)
    ensures Linked(c, f, w.(down := Lose(w.down, i)), e)
    ensures Linked(c, f, w.(down := Twice(w.down, i)), e)
  {
    hide Phases, DataPkt, AckOf;
    if w.at == e {
      var a := DataPkt(f, c.Blk(), if e == 1 then 1 else e - 1);
      PhasesLose(w.up, a, DataPkt(f, c.Blk(), e), i);
      PhasesTwice(w.up, a, DataPkt(f, c.Blk(), e), i);
      PhasesLose(w.down, AckOf(c, e - 1), AckOf(c, e - 1), i);
      PhasesTwice(w.down, AckOf(c, e - 1), AckOf(c, e - 1), i);
    } else {
      if w.at > 0 {
        PhasesLose(w.up, DataPkt(f, c.Blk(), w.at), DataPkt(f, c.Blk(), w.at), i);
        PhasesTwice(w.up, DataPkt(f, c.Blk(), w.at), DataPkt(f, c.Blk(), w.at), i);
      }
      var a := AckOf(c, if e == 1 then 0 else e - 2);
      PhasesLose(w.down, a, AckOf(c, e - 1), i);
      PhasesTwice(w.down, a, AckOf(c, e - 1), i);
    }
  }

  lemma ResendKeeps(c: Cfg, f: seq<byte>, w: Sys, e: nat)
    requires c.Blk() > 0 && e >= 1 && Linked(c, f, w, e) && 1 <= w.at
    ensures Linked(c, f, w.(up := w.up + [DataPkt(f, c.Blk(), w.at)]), e)
  {
    hide Phases, DataPkt, AckOf;
    if w.at == e {
      PhasesSend(w.up, DataPkt(f, c.Blk(), if e == 1 then 1 else e - 1), DataPkt(f, c.Blk(), e));
    } else {
      PhasesSend(w.up, DataPkt(f, c.Blk(), w.at), DataPkt(f, c.Blk(), w.at));
    }
  }

  lemma TakeKeeps(c: Cfg, f: seq<byte>, w: Sys, e: nat)
    requires c.Blk() > 0 && 1 <= e <= FinalBlock(c, f) + 1 && Linked(c, f, w, e)
    ensures Linked(c, f, ClientStep(c, f, w), e)
  {
    hide Phases, DataPkt, AckOf, Wanted;
    if w.down != [] {
      AcksDiffer(c, e);
      if w.at == e {
        PhasesTake(w.down, AckOf(c, e - 1), AckOf(c, e - 1));
      } else if w.at == 0 {
        PhasesTake(w.down, AckOf(c, 0), AckOf(c, 0));
        OnePacket(DataPkt(f, c.Blk(), 1));
      } else {
        PhasesTake(w.down, AckOf(c, e - 2), AckOf(c, e - 1));
        AcksDiffer(c, e - 1);
        DataPktsDiffer(c, f, e);
        PhasesOf(w.up, DataPkt(f, c.Blk(), e - 1), DataPkt(f, c.Blk(), e));
        PhasesSend(w.up, DataPkt(f, c.Blk(), e - 1), DataPkt(f, c.Blk(), e));
        assert w.up + [] == w.up;
      }
    }
  }

  // ------------------------------------------------------- the session's moves

  lemma StartKeeps(c: Cfg, f: seq<byte>, w: Sys, ev: Ev)
    requires Setting(c) && Inv(c, f, w) && (w.srv.stat == NeedInit || w.srv.stat == AckOptions)
    ensures Inv(c, f, ServerStep(c, w, ev, w.up))
  {
    hide Encode, Overwrite, DataPkt, Phases;
    NewsOf(w.srv.sent, Oack(c.opt), w.down);
    OnePacket(AckOf(c, 0));
    NoPackets(AckOf(c, 0));
  }

  lemma AckKeeps(c: Cfg, f: seq<byte>, w: Sys, ev: Ev)
    requires Setting(c) && Inv(c, f, w) && w.srv.stat == AckTx
    ensures Inv(c, f, ServerStep(c, w, ev, w.up))
  {
    hide Encode, Overwrite, DataPkt, Phases, Prefix;
    var e := w.srv.stage + 1;
    var p := Ack(Num(e - 1));
    assert p == AckOf(c, e - 1);
    NewsOf(w.srv.sent, p, w.down);
    if w.at == e {
      PhasesSend(w.down, AckOf(c, e - 1), AckOf(c, e - 1));
    } else {
      PhasesSend(w.down, AckOf(c, if e == 1 then 0 else e - 2), AckOf(c, e - 1));
    }
  }

  lemma SilenceKeeps(c: Cfg, f: seq<byte>, w: Sys, rx: Rx, expired: bool)
    requires Setting(c) && Inv(c, f, w) && w.srv.stat == DataRx
    requires rx.Nothing? || (rx.Packet? && rx.from != c.client)
    ensures Inv(c, f, ServerStep(c, w, Ev(rx, expired), w.up))
  {
    hide Step, Overwrite, Linked, Prefix, Clip;
    NothingForUs(c, w.srv, rx, expired);
    NewsOf(w.srv.sent, Ack(0), w.down);
    LinkedIgnoresServer(c, f, w, w.srv.stage, Step(c, w.srv, Ev(rx, expired)));
  }

  lemma LinkedIgnoresServer(c: Cfg, f: seq<byte>, w: Sys, e: nat, t: St)
    requires c.Blk() > 0 && e >= 1 && Linked(c, f, w, e)
    ensures Linked(c, f, w.(srv := t), e)
  {
  }

  lemma GiveUpKeeps(c: Cfg, f: seq<byte>, w: Sys, ev: Ev)
    requires Setting(c) && Inv(c, f, w)
    requires (w.srv.stat == Retransmit && c.limit == 0) || w.srv.stat == ErrorAndStop || w.srv.stat == Finish
    ensures Inv(c, f, ServerStep(c, w, ev, w.up))
  {
    hide Encode, Overwrite, Linked, Prefix;
    NewsOf(w.srv.sent, Ack(0), w.down);
    LinkedIgnoresServer(c, f, w, w.srv.stage, Step(c, w.srv, ev));
  }

  lemma NewAtHead(c: Cfg, f: seq<byte>, w: Sys, e: nat)
    requires c.Blk() > 0 && e >= 1 && Linked(c, f, w, e) && w.up != []
    requires w.up[0] == DataPkt(f, c.Blk(), e)
    ensures w.at == e && Phases(w.up[1..], DataPkt(f, c.Blk(), e), DataPkt(f, c.Blk(), e))
  {
    if w.at != e {
      DataPktsDiffer(c, f, e);
      assert false;
    }
    PhasesTake(w.up, DataPkt(f, c.Blk(), if e == 1 then 1 else e - 1), DataPkt(f, c.Blk(), e));
  }

  /** The awaited block arrives. */
  lemma NewBlockKeeps(c: Cfg, f: seq<byte>, w: Sys, expired: bool)
    requires Setting(c) && Inv(c, f, w) && w.srv.stat == DataRx && w.up != []
    requires w.up[0] == DataPkt(f, c.Blk(), w.srv.stage)
    ensures Inv(c, f, ServerStep(c, w, FromClient(c, w.up[0], expired), w.up[1..]))
  {
    hide Step, DataPkt, Phases, Prefix, AckOf, Accepts, RxStage, WindowClosed, FromClient;
    var e := w.srv.stage;
    SingleWindow(c, e);
    NewAtHead(c, f, w, e);
    NeighbourNumbers(e);
    StoresBlock(c, w.srv, f, e - 1, e, expired);
    NewsOf(w.srv.sent, Ack(0), w.down);
    AcksDiffer(c, e);
    PhasesOf(w.down, AckOf(c, e - 1), AckOf(c, e));
  }

  /** The block before arrives once more: it is acknowledged again, or, across a
      wrap of the block numbers, ends the session. */
  lemma OldBlockKeeps(c: Cfg, f: seq<byte>, w: Sys, expired: bool)
    requires Setting(c) && Inv(c, f, w) && w.srv.stat == DataRx && w.up != []
    requires w.srv.stage >= 2 && w.up[0] == DataPkt(f, c.Blk(), w.srv.stage - 1)
    ensures Inv(c, f, ServerStep(c, w, FromClient(c, w.up[0], expired), w.up[1..]))
  {
    hide Step, Phases, Prefix, Block, Accepts, RxStage, WindowClosed, FromClient, AckOf;
    var e := w.srv.stage;
    SingleWindow(c, e - 1);
    NeighbourNumbers(e);
    NewsOf(w.srv.sent, Ack(0), w.down);
    if w.at == e {
      PhasesTake(w.up, DataPkt(f, c.Blk(), e - 1), DataPkt(f, c.Blk(), e));
    } else {
      PhasesTake(w.up, DataPkt(f, c.Blk(), e - 1), DataPkt(f, c.Blk(), e - 1));
    }
    if Num(e) != 0 {
      StoresBlock(c, w.srv, f, e - 1, e - 1, expired);
    } else {
      BlockSizes(f, c.Blk(), e - 1);
      RefusesNumber(c, w.srv, Num(e - 1), Block(f, c.Blk(), e - 1), expired);
    }
  }

  lemma DeliveryKeeps(c: Cfg, f: seq<byte>, w: Sys, expired: bool)
    requires Setting(c) && Inv(c, f, w) && w.srv.stat == DataRx && w.up != []
    ensures Inv(c, f, ServerStep(c, w, FromClient(c, w.up[0], expired), w.up[1..]))
  {
    hide Step, DataPkt, Phases, Prefix;
    var e := w.srv.stage;
    if w.at == e {
      PhasesTake(w.up, DataPkt(f, c.Blk(), if e == 1 then 1 else e - 1), DataPkt(f, c.Blk(), e));
    } else {
      PhasesTake(w.up, DataPkt(f, c.Blk(), e - 1), DataPkt(f, c.Blk(), e - 1));
    }
    if w.up[0] == DataPkt(f, c.Blk(), e) {
      NewBlockKeeps(c, f, w, expired);
    } else {
      OldBlockKeeps(c, f, w, expired);
    }
  }

  /** A step that would retransmit: the receive timer has expired and the limit
      leaves a retry. This is the one step that breaks the invariant. */
  predicate Resends(c: Cfg, w: Sys, ev: Event) {
    && w.srv.stat == Retransmit && w.srv.retr < c.limit
    && (ev.Server? || (ev.Stranger? && ev.from != c.client))
  }

  /** Moves of the client and of the network, while the session rests. */
  lemma PeerKeeps(c: Cfg, f: seq<byte>, w: Sys, ev: Event)
    requires Setting(c) && Inv(c, f, w) && !ev.Server? && !ev.Stranger?
    ensures Inv(c, f, Next(c, f, w, ev))
  {
    hide Step, Linked, Prefix, ClientStep, DataPkt;
    if w.srv.stat == NeedInit || w.srv.stat == AckOptions {
      NobodyYet(c, f, w, ev);
    } else {
      var e := Awaited(w.srv);
      match ev
      case ClientTakes =>
        TakeKeeps(c, f, w, e);
        ClientLeavesServer(c, f, w);
      case ClientResends => if w.at >= 1 { ResendKeeps(c, f, w, e); }
      case LoseUp(i) => NetworkKeeps(c, f, w, e, i);
      case LoseDown(i) => NetworkKeeps(c, f, w, e, i);
      case TwiceUp(i) => NetworkKeeps(c, f, w, e, i);
      case TwiceDown(i) => NetworkKeeps(c, f, w, e, i);
    }
  }

  lemma ClientLeavesServer(c: Cfg, f: seq<byte>, w: Sys)
    requires c.Blk() > 0
    ensures ClientStep(c, f, w).srv == w.srv
  {
  }

  lemma NobodyYet(c: Cfg, f: seq<byte>, w: Sys, ev: Event)
    requires Setting(c) && w.srv.Fits() && !ev.Server? && !ev.Stranger?
    requires w.at == 0 && w.up == [] && w.down == []
    ensures Next(c, f, w, ev) == w
  {
    hide DataPkt;
  }

  lemma NextKeeps(c: Cfg, f: seq<byte>, w: Sys, ev: Event)
    requires Setting(c) && Inv(c, f, w) && !Resends(c, w, ev)
    ensures Inv(c, f, Next(c, f, w, ev))
  {
    hide Step, Linked, Prefix, ClientStep, ServerStep;
    if ev.Server? || (ev.Stranger? && ev.from != c.client) {
      var rx := if ev.Server? then Nothing else Packet(ev.from, ev.bytes);
      match w.srv.stat
      case NeedInit => StartKeeps(c, f, w, Ev(rx, ev.expired));
      case AckOptions => StartKeeps(c, f, w, Ev(rx, ev.expired));
      case AckTx => AckKeeps(c, f, w, Ev(rx, ev.expired));
      case DataRx =>
        if ev.Server? && ev.deliver && w.up != [] {
          DeliveryKeeps(c, f, w, ev.expired);
        } else {
          SilenceKeeps(c, f, w, rx, ev.expired);
        }
      case Retransmit => GiveUpKeeps(c, f, w, Ev(rx, ev.expired));
      case ErrorAndStop => GiveUpKeeps(c, f, w, Ev(rx, ev.expired));
      case Finish => GiveUpKeeps(c, f, w, Ev(rx, ev.expired));
    } else if !ev.Stranger? {
      PeerKeeps(c, f, w, ev);
    }
  }

  // ----------------------------------------------------------------- theorems

  /** No step of the run retransmits. */
  ghost predicate NoResend(c: Cfg, f: seq<byte>, evs: seq<Event>)
    requires Setting(c)
  {
    evs == [] ||
    (NoResend(c, f, evs[..|evs| - 1]) && !Resends(c, Run(c, f, evs[..|evs| - 1]), evs[|evs| - 1]))
  }

  lemma {:induction false} InvariantHolds(c: Cfg, f: seq<byte>, evs: seq<Event>)
    requires Setting(c) && NoResend(c, f, evs)
    ensures Inv(c, f, Run(c, f, evs))
  {
    hide Next, Inv;
    if evs == [] {
      InitInv(c, f);
    } else {
      InvariantHolds(c, f, evs[..|evs| - 1]);
      NextKeeps(c, f, Run(c, f, evs[..|evs| - 1]), evs[|evs| - 1]);
    }
  }

  lemma InitInv(c: Cfg, f: seq<byte>)
    requires Setting(c)
    ensures Inv(c, f, Init())
  {
  }

  /** The client has seen all its blocks acknowledged. */
  predicate ClientDone(c: Cfg, f: seq<byte>, w: Sys)
    requires c.Blk() > 0
  {
    w.at == FinalBlock(c, f) + 1
  }

  /** Safety of writes, for files of any length and across any number of wraps of
      the block numbers: the session stores exactly the blocks before the awaited
      one, in order; what it acknowledges it has stored; when it finishes on an
      acknowledgement the whole file is stored; when the client is satisfied the
      whole file is stored; and only behind a wrap can the network break the session
      off. */
  lemma {:induction false} WriteSafety(c: Cfg, f: seq<byte>, evs: seq<Event>)
    requires Setting(c) && NoResend(c, f, evs)
    ensures var w := Run(c, f, evs);
            var s := w.srv;
            && !s.crashed
            && s.file.content <= f
            && (s.stat == DataRx ==> s.stage >= 1 && s.file.content == Prefix(f, c.Blk(), s.stage - 1))
            && (s.stat == AckTx ==> s.file.content == Prefix(f, c.Blk(), s.stage))
            && (s.stat == Finish && s.last ==> s.file.content == f)
            && (ClientDone(c, f, w) ==> s.file.content == f)
            && (s.WasError() ==> s.stat == Finish && WIRE <= s.stage <= FinalBlock(c, f))
  {
    hide RunFrom;
    InvariantHolds(c, f, evs);
    WholeFile(f, c.Blk());
  }

  /** A session that ends on an acknowledgement has the whole file. */
  lemma {:induction false} FinishFromAck(c: Cfg, f: seq<byte>, evs: seq<Event>, ev: Event)
    requires Setting(c) && NoResend(c, f, evs + [ev])
    requires Run(c, f, evs).srv.stat == AckTx && Run(c, f, evs + [ev]).srv.stat == Finish
    ensures Run(c, f, evs + [ev]).srv.file.content == f
  {
    assert (evs + [ev])[..|evs|] == evs;
    AckTxFinishes(c, f, Run(c, f, evs), ev);
    WriteSafety(c, f, evs + [ev]);
  }

  lemma AckTxFinishes(c: Cfg, f: seq<byte>, w: Sys, ev: Event)
    requires Setting(c) && w.srv.Fits() && w.srv.stat == AckTx && !w.srv.crashed
    requires Next(c, f, w, ev).srv.stat == Finish
    ensures Next(c, f, w, ev).srv.last
  {
    hide Encode, Overwrite, DataPkt;
    if !ev.Server? && !ev.Stranger? {
      ClientLeavesServer(c, f, w);
    }
  }

  /** Acknowledging exactly: a state about to acknowledge has stored exactly the
      blocks up to its number, and knows whether that was the last. */
  ghost predicate Exact(c: Cfg, f: seq<byte>, w: Sys)
    requires c.Blk() > 0
  {
    w.srv.stat == AckTx ==>
      && w.srv.file.content == Prefix(f, c.Blk(), w.srv.stage)
      && (w.srv.last <==> w.srv.stage == FinalBlock(c, f))
  }

  /** The retransmitting step acknowledges a block that has not arrived. */
  lemma ResendIsInexact(c: Cfg, f: seq<byte>, w: Sys, ev: Event)
    requires Setting(c) && Inv(c, f, w) && Resends(c, w, ev)
    ensures !Exact(c, f, Next(c, f, w, ev))
  {
    hide Encode, Overwrite, Linked;
    var e := w.srv.stage;
    BlockSizes(f, c.Blk(), e);
    PrefixGrows(f, c.Blk(), e);
  }

  /** The exact condition: in every state of a run the session acknowledges exactly
      what it has stored, if and only if no step of the run retransmits. */
  lemma {:induction false} ExactUnlessResent(c: Cfg, f: seq<byte>, evs: seq<Event>)
    requires Setting(c)
    ensures (forall k :: 0 <= k <= |evs| ==> Exact(c, f, Run(c, f, evs[..k]))) <==> NoResend(c, f, evs)
  {
    if NoResend(c, f, evs) {
      forall k | 0 <= k <= |evs|
        ensures Exact(c, f, Run(c, f, evs[..k]))
      {
        NoResendPrefix(c, f, evs, k);
        WriteSafety(c, f, evs[..k]);
        LastKnown(c, f, evs[..k]);
      }
    } else {
      var k := FirstInexact(c, f, evs);
    }
  }

  lemma {:induction false} LastKnown(c: Cfg, f: seq<byte>, evs: seq<Event>)
    requires Setting(c) && NoResend(c, f, evs)
    ensures var s := Run(c, f, evs).srv;
            s.stat == AckTx ==> (s.last <==> s.stage == FinalBlock(c, f))
  {
    hide RunFrom;
    InvariantHolds(c, f, evs);
  }

  lemma {:induction false} NoResendPrefix(c: Cfg, f: seq<byte>, evs: seq<Event>, k: nat)
    requires Setting(c) && NoResend(c, f, evs) && k <= |evs|
    ensures NoResend(c, f, evs[..k])
  {
    if k < |evs| {
      NoResendPrefix(c, f, evs[..|evs| - 1], k);
      assert evs[..|evs| - 1][..k] == evs[..k];
    } else {
      assert evs[..k] == evs;
    }
  }

  lemma {:induction false} FirstInexact(c: Cfg, f: seq<byte>, evs: seq<Event>) returns (k: nat)
    requires Setting(c) && !NoResend(c, f, evs)
    ensures k <= |evs| && !Exact(c, f, Run(c, f, evs[..k]))
  {
    hide Next, Inv, Exact, Resends;
    var init := evs[..|evs| - 1];
    if NoResend(c, f, init) {
      k := |evs|;
      assert evs[..k] == evs;
      InvariantHolds(c, f, init);
      ResendIsInexact(c, f, Run(c, f, init), evs[|evs| - 1]);
    } else {
      k := FirstInexact(c, f, init);
      assert init[..k] == evs[..k];
    }
  }
}
