/** A read session against a lock-step client (sections 2 and 6 of RFC 1350),
    over channels that lose and duplicate, for windows of one block. */
module ReadProtocol {
  import opened Octets
  import opened PacketBuffer
  import opened Requests
  import opened DataFile
  import opened SessionModel
  import opened SessionLaws
  import opened BlockSteps
  import opened Channels

  /** The session, the client and the two channels between them. The client waits
      for block `next`, where 0 is the option acknowledgement; `got` is what it has
      accepted so far. */
  datatype Sys = Sys(srv: St, next: nat, got: seq<byte>, done: bool, down: seq<Pkt>, up: seq<Pkt>)

  datatype Event =
    | Server(deliver: bool, expired: bool)
    | Stranger(from: Addr, bytes: seq<byte>, expired: bool)
    | ClientTakes(reack: bool)
    | ClientResends
    | LoseUp(i: nat)
    | LoseDown(i: nat)
    | TwiceUp(i: nat)
    | TwiceDown(i: nat)

  /** A read request for a file that opens, with blocks of at least a byte and no
      window above one. */
  ghost predicate Setting(c: Cfg) {
    c.Valid() && c.opt.req == SrvReq.Read && c.opening.Opened? && c.Blk() > 0 && c.Window() == 1
  }

  function File(c: Cfg): (r: seq<byte>)
    requires c.opening.Opened?
  {
    c.opening.content
  }

  /** What the session sends for block `n`. */
  function Msg(c: Cfg, n: nat): (r: Pkt)
    requires c.opening.Opened?
  {
    if n == 0 then Oack(c.opt) else DataPkt(File(c), c.Blk(), n)
  }

  function AckOf(n: nat): (r: Pkt) {
    Ack(Num(n))
  }

  function Init(c: Cfg): (r: Sys) {
    Sys(Start(), First(c), [], false, [], [])
  }

  function ServerStep(c: Cfg, w: Sys, ev: Ev, up: seq<Pkt>): (r: Sys)
    requires c.Valid() && w.srv.Fits()
    ensures r.srv.Fits()
  {
    var t := Step(c, w.srv, ev);
    w.(srv := t, up := up, down := w.down + News(w.srv.sent, t.sent))
  }

  /** The packet the client waits for. */
  predicate Awaits(n: nat, p: Pkt) {
    if n == 0 then p.Oack? else p.Data? && p.num == Num(n)
  }

  /** A repetition of what the client accepted last. */
  predicate Repeats(n: nat, p: Pkt) {
    n >= 1 && Awaits(n - 1, p)
  }

  /** The client's move on the packet at the head of its channel: it accepts the
      awaited one and acknowledges it, may acknowledge a repetition again, and
      ignores everything else. A short block is the last. */
  function ClientStep(c: Cfg, w: Sys, reack: bool): (r: Sys) {
    if w.down == [] then w
    else
      var p := w.down[0];
      var w1 := w.(down := w.down[1..]);
      if Awaits(w.next, p) && !w.done then
        if p.Data? then
          w1.(next := w.next + 1, up := w.up + [AckOf(w.next)],
              got := w.got + p.payload, done := |p.payload| < c.Blk())
        else w1.(next := 1, up := w.up + [AckOf(0)])
      else if reack && Repeats(w.next, p) then w1.(up := w.up + [AckOf(w.next - 1)])
      else w1
  }

  function Next(c: Cfg, w: Sys, ev: Event): (r: Sys)
    requires Setting(c) && w.srv.Fits()
    ensures r.srv.Fits()
  {
    match ev
    case Server(deliver, expired) =>
      if deliver && w.up != [] && w.srv.stat == AckRx
      then ServerStep(c, w, FromClient(c, w.up[0], expired), w.up[1..])
      else ServerStep(c, w, Ev(Nothing, expired), w.up)
    case Stranger(from, bytes, expired) =>
      if from != c.client then ServerStep(c, w, Ev(Packet(from, bytes), expired), w.up) else w
    case ClientTakes(reack) => ClientStep(c, w, reack)
    case ClientResends => if w.next > First(c) then w.(up := w.up + [AckOf(w.next - 1)]) else w
    case LoseUp(i) => w.(up := Lose(w.up, i))
    case LoseDown(i) => w.(down := Lose(w.down, i))
    case TwiceUp(i) => w.(up := Twice(w.up, i))
    case TwiceDown(i) => w.(down := Twice(w.down, i))
  }

  /** The system after a run of events that starts in `w`. */
  function RunFrom(c: Cfg, w: Sys, evs: seq<Event>): (r: Sys)
    requires Setting(c) && w.srv.Fits()
    ensures r.srv.Fits()
  {
    if evs == [] then w else Next(c, RunFrom(c, w, evs[..|evs| - 1]), evs[|evs| - 1])
  }

  function Run(c: Cfg, evs: seq<Event>): (r: Sys)
    requires Setting(c)
    ensures r.srv.Fits()
  {
    RunFrom(c, Init(c), evs)
  }

  // ---------------------------------------------------------------- invariant

  /** What the client has accepted is the file up to the block it waits for, and it
      is done exactly behind the last one; its channel carries copies of the packet
      it waits for, after copies of the one before. */
  ghost predicate ClientFine(c: Cfg, w: Sys)
    requires Setting(c)
  {
    && First(c) <= w.next <= FinalBlock(c, File(c)) + 1
    && w.got == Prefix(File(c), c.Blk(), if w.next == 0 then 0 else w.next - 1)
    && (w.done <==> w.next == FinalBlock(c, File(c)) + 1)
    && (if w.next == First(c) then Phases(w.down, Msg(c, w.next), Msg(c, w.next))
        else Phases(w.down, Msg(c, w.next - 1), Msg(c, w.next)))
    && (w.done ==> Phases(w.down, Msg(c, FinalBlock(c, File(c))), Msg(c, FinalBlock(c, File(c)))))
  }

  /** Client and session are at most one block apart. */
  ghost predicate Linked(c: Cfg, w: Sys, s: nat)
    requires Setting(c) && First(c) <= s
  {
    if w.next == s then
      && (if s == First(c) then w.up == [] else Phases(w.up, AckOf(s - 1), AckOf(s - 1)))
    else
      && w.next == s + 1
      && Phases(w.down, Msg(c, s), Msg(c, s))
      && Phases(w.up, AckOf(if s == First(c) then s else s - 1), AckOf(s))
  }

  /** A timeout would make the session send its block again. */
  predicate Retriable(c: Cfg, s: St) {
    (s.retr + 1) % WIRE <= c.limit
  }

  /** A session with its stream, still in the middle of the transfer: the stream can
      have failed only at the last block, and as long as that can be sent again the
      buffer holds it. */
  ghost predicate Serving(c: Cfg, s: St)
    requires Setting(c)
  {
    && s.Fits() && !s.crashed && !s.WasError()
    && s.file == FileSt(SrvReq.Read, File(c), s.file.fail)
    && First(c) <= s.stage <= FinalBlock(c, File(c))
    && (s.file.fail ==> s.stage == FinalBlock(c, File(c)))
    && (s.stat == DataTx || Retriable(c, s) ==> Loaded(c, s))
  }

  ghost predicate Inv(c: Cfg, w: Sys)
    requires Setting(c)
  {
    var s, n := w.srv, FinalBlock(c, File(c));
    && s.Fits() && !s.crashed
    && match s.stat
       case NeedInit => w == Init(c)
       case AckOptions =>
         && w == Init(c).(srv := s) && s.stage == 0 && !s.WasError() && !s.last && s.sent == []
         && s.file == FileSt(SrvReq.Read, File(c), false)
       case AckRx =>
         Serving(c, s) && ClientFine(c, w) && Linked(c, w, s.stage) && (s.last <==> s.stage == n)
       case Retransmit =>
         Serving(c, s) && ClientFine(c, w) && Linked(c, w, s.stage) && (s.last <==> s.stage == n)
       case DataTx =>
         Serving(c, s) && ClientFine(c, w) && Linked(c, w, s.stage) && s.stage >= 1
       case ErrorAndStop => ClientFine(c, w) && !s.WasError()
       case Finish => ClientFine(c, w) && (s.WasError() ==> WIRE <= s.stage <= n)
       case _ => false
  }

  lemma MsgsDiffer(c: Cfg, n: nat)
    requires Setting(c) && n >= 1
    ensures Msg(c, n - 1) != Msg(c, n)
    ensures Awaits(n, Msg(c, n)) && !Awaits(n, Msg(c, n - 1)) && Awaits(n - 1, Msg(c, n - 1))
    ensures !Awaits(n - 1, Msg(c, n))
    ensures AckOf(n - 1) != AckOf(n)
  {
    hide Block;
    NeighbourNumbers(n);
  }

  // ------------------------------------------------------- the client's moves

  lemma NetworkKeepsClient(c: Cfg, w: Sys, i: nat)
    requires Setting(c) && ClientFine(c, w)
    ensures ClientFine(c, w.(down := Lose(w.down, i)))
    ensures ClientFine(c, w.(down := Twice(w.down, i)))
  {
    hide Phases, Msg, Prefix;
    var a := Msg(c, if w.next == First(c) then w.next else w.next - 1);
    PhasesLose(w.down, a, Msg(c, w.next), i);
    PhasesTwice(w.down, a, Msg(c, w.next), i);
    if w.done {
      PhasesLose(w.down, Msg(c, FinalBlock(c, File(c))), Msg(c, FinalBlock(c, File(c))), i);
      PhasesTwice(w.down, Msg(c, FinalBlock(c, File(c))), Msg(c, FinalBlock(c, File(c))), i);
    }
  }

  lemma NetworkKeepsLink(c: Cfg, w: Sys, s: nat, i: nat)
    requires Setting(c) && First(c) <= s && Linked(c, w, s)
    ensures Linked(c, w.(down := Lose(w.down, i)), s)
    ensures Linked(c, w.(down := Twice(w.down, i)), s)
    ensures Linked(c, w.(up := Lose(w.up, i)), s)
    ensures Linked(c, w.(up := Twice(w.up, i)), s)
  {
    hide Phases, Msg, AckOf;
    if w.next == s {
      if s != First(c) {
        PhasesLose(w.up, AckOf(s - 1), AckOf(s - 1), i);
        PhasesTwice(w.up, AckOf(s - 1), AckOf(s - 1), i);
      }
    } else {
      PhasesLose(w.down, Msg(c, s), Msg(c, s), i);
      PhasesTwice(w.down, Msg(c, s), Msg(c, s), i);
      var a := AckOf(if s == First(c) then s else s - 1);
      PhasesLose(w.up, a, AckOf(s), i);
      PhasesTwice(w.up, a, AckOf(s), i);
    }
  }

  lemma ResendKeepsLink(c: Cfg, w: Sys, s: nat)
    requires Setting(c) && First(c) <= s && Linked(c, w, s) && w.next > First(c)
    ensures Linked(c, w.(up := w.up + [AckOf(w.next - 1)]), s)
  {
    hide Phases, Msg, AckOf;
    if w.next == s {
      PhasesSend(w.up, AckOf(s - 1), AckOf(s - 1));
    } else {
      PhasesSend(w.up, AckOf(if s == First(c) then s else s - 1), AckOf(s));
    }
  }

  /** The packet the client finds at the head of its channel. */
  lemma HeadOfDown(c: Cfg, w: Sys)
    requires Setting(c) && ClientFine(c, w) && w.down != []
    ensures w.down[0] == Msg(c, w.next) || (w.next > First(c) && w.down[0] == Msg(c, w.next - 1))
    ensures w.done ==> w.down[0] == Msg(c, w.next - 1)
    ensures w.next >= 1 ==> Msg(c, w.next - 1) != Msg(c, w.next)
  {
    hide Phases, Msg, Prefix;
    var a := Msg(c, if w.next == First(c) then w.next else w.next - 1);
    PhasesTake(w.down, a, Msg(c, w.next));
    if w.done {
      PhasesTake(w.down, Msg(c, FinalBlock(c, File(c))), Msg(c, FinalBlock(c, File(c))));
    }
    if w.next >= 1 {
      MsgsDiffer(c, w.next);
    }
  }

  /** The client accepts the awaited packet: the accepted bytes grow by exactly that
      block. */
  lemma AcceptFine(c: Cfg, w: Sys, reack: bool)
    requires Setting(c) && ClientFine(c, w) && w.down != [] && w.down[0] == Msg(c, w.next) && !w.done
    ensures var t := ClientStep(c, w, reack);
            && ClientFine(c, t)
            && t == w.(next := w.next + 1, up := w.up + [AckOf(w.next)], down := w.down[1..],
                       got := t.got, done := t.done)
            && Phases(t.down, Msg(c, w.next), Msg(c, w.next))
  {
    hide Phases, Block, Prefix, AckOf;
    var n := w.next;
    var a := Msg(c, if n == First(c) then n else n - 1);
    PhasesTake(w.down, a, Msg(c, n));
    MsgsDiffer(c, n + 1);
    PhasesOf(w.down[1..], Msg(c, n), Msg(c, n + 1));
    if n >= 1 {
      PrefixGrows(File(c), c.Blk(), n);
      BlockSizes(File(c), c.Blk(), n);
    }
  }

  /** Any other packet leaves the client where it is; at most it acknowledges what
      it has once more. */
  lemma IgnoreFine(c: Cfg, w: Sys, reack: bool)
    requires Setting(c) && ClientFine(c, w) && w.down != []
    requires w.next >= 1 && w.down[0] == Msg(c, w.next - 1)
    ensures var t := ClientStep(c, w, reack);
            && ClientFine(c, t)
            && t == w.(down := w.down[1..], up := w.up + if reack then [AckOf(w.next - 1)] else [])
  {
    hide Phases, Msg, Prefix, AckOf, Awaits;
    var n := w.next;
    MsgsDiffer(c, n);
    PhasesTake(w.down, Msg(c, if n == First(c) then n else n - 1), Msg(c, n));
    if w.done {
      PhasesTake(w.down, Msg(c, FinalBlock(c, File(c))), Msg(c, FinalBlock(c, File(c))));
    }
    assert w.up + [] == w.up;
  }

  lemma TakeKeeps(c: Cfg, w: Sys, s: nat, reack: bool)
    requires Setting(c) && ClientFine(c, w) && First(c) <= s <= FinalBlock(c, File(c)) && Linked(c, w, s)
    ensures ClientFine(c, ClientStep(c, w, reack)) && Linked(c, ClientStep(c, w, reack), s)
  {
    hide Phases, Msg, Prefix, AckOf, ClientFine, ClientStep;
    if w.down == [] {
      EmptyTake(c, w, reack);
    } else {
      HeadAndFine(c, w);
      if w.next == s && w.down[0] == Msg(c, w.next) {
        AcceptFine(c, w, reack);
        if s == First(c) {
          OnePacket(AckOf(s));
        } else {
          MsgsDiffer(c, s);
          PhasesOf(w.up, AckOf(s - 1), AckOf(s));
          PhasesSend(w.up, AckOf(s - 1), AckOf(s));
        }
      } else if w.next == s {
        IgnoreFine(c, w, reack);
        PhasesSend(w.up, AckOf(s - 1), AckOf(s - 1));
        assert w.up + [] == w.up;
      } else {
        PhasesTake(w.down, Msg(c, s), Msg(c, s));
        IgnoreFine(c, w, reack);
        PhasesSend(w.up, AckOf(if s == First(c) then s else s - 1), AckOf(s));
        assert w.up + [] == w.up;
      }
    }
  }

  lemma EmptyTake(c: Cfg, w: Sys, reack: bool)
    requires w.down == []
    ensures ClientStep(c, w, reack) == w
  {
  }

  /** What `HeadOfDown` says, for a client at the session's block. */
  lemma HeadAndFine(c: Cfg, w: Sys)
    requires Setting(c) && ClientFine(c, w) && w.down != []
    ensures w.down[0] == Msg(c, w.next) || (w.next > First(c) && w.down[0] == Msg(c, w.next - 1))
    ensures w.done <==> w.next == FinalBlock(c, File(c)) + 1
    ensures w.down[0] == Msg(c, w.next) && w.next <= FinalBlock(c, File(c)) ==> !w.done
  {
    hide Phases, Msg, Prefix;
    HeadOfDown(c, w);
  }

  lemma TakeKeepsClient(c: Cfg, w: Sys, reack: bool)
    requires Setting(c) && ClientFine(c, w)
    ensures ClientFine(c, ClientStep(c, w, reack))
  {
    hide Phases, Msg, Prefix, AckOf, ClientFine, ClientStep;
    if w.down == [] {
      EmptyTake(c, w, reack);
    } else {
      HeadOfDown(c, w);
      HeadAndFine(c, w);
      if w.down[0] == Msg(c, w.next) {
        AcceptFine(c, w, reack);
      } else {
        IgnoreFine(c, w, reack);
      }
    }
  }

  // ------------------------------------------------------- the session's moves

  lemma ClientIgnoresServer(c: Cfg, w: Sys, t: St, up: seq<Pkt>)
    requires Setting(c) && ClientFine(c, w)
    ensures ClientFine(c, w.(srv := t, up := up))
  {
  }

  lemma LinkIgnoresServer(c: Cfg, w: Sys, s: nat, t: St)
    requires Setting(c) && First(c) <= s && Linked(c, w, s)
    ensures Linked(c, w.(srv := t), s)
  {
  }

  lemma StartKeeps(c: Cfg, w: Sys, ev: Ev)
    requires Setting(c) && Inv(c, w) && (w.srv.stat == NeedInit || w.srv.stat == AckOptions)
    ensures Inv(c, ServerStep(c, w, ev, w.up))
  {
    hide Encode, Overwrite, DataPkt, Phases;
    NewsOf(w.srv.sent, Oack(c.opt), w.down);
    OnePacket(Msg(c, 0));
    NoPackets(Msg(c, 1));
    assert Prefix(File(c), c.Blk(), 0) == [];
  }

  lemma LoadedWhere(c: Cfg, s: St)
    requires Setting(c) && s.Fits() && Loaded(c, s)
    ensures s.file.fail ==> s.stage == FinalBlock(c, s.file.content)
  {
  }

  /** Sending the current block, for the first time or again. */
  lemma SendKeeps(c: Cfg, w: Sys, ev: Ev)
    requires Setting(c) && Inv(c, w) && w.srv.stat == DataTx
    ensures Inv(c, ServerStep(c, w, ev, w.up))
  {
    hide Step, Phases, Prefix, Block, AckOf, WindowClosed, Loaded, FinalBlock;
    var n := w.srv.stage;
    SingleWindow(c, n);
    SendsBlock(c, w.srv, ev, n);
    LoadedWhere(c, Step(c, w.srv, ev));
    var p := Msg(c, n);
    NewsOf(w.srv.sent, p, w.down);
    if w.next == n {
      PhasesSend(w.down, Msg(c, if n == First(c) then n else n - 1), p);
    } else {
      PhasesSend(w.down, p, p);
      MsgsDiffer(c, n + 1);
      PhasesOf(w.down + [p], p, Msg(c, n + 1));
    }
  }

  /** A packet of four bytes or less leaves the payload part of the buffer alone. */
  lemma ShortKeepsLoaded(c: Cfg, s: St, t: St, p: seq<byte>)
    requires Setting(c) && Serving(c, s) && Loaded(c, s) && t.Fits() && |p| <= BUF_SIZE
    requires t.stage == s.stage && t.file == s.file && t.buf == Overwrite(s.buf, p)
    requires s.file.fail ==> |p| <= 4
    ensures Loaded(c, t)
  {
    if s.file.fail {
      assert t.buf[4..] == s.buf[4..];
      BlockSizes(File(c), c.Blk(), s.stage);
      var b := Block(File(c), c.Blk(), s.stage);
      assert t.buf[4..4 + |b|] == t.buf[4..][..|b|];
      assert s.buf[4..4 + |b|] == s.buf[4..][..|b|];
    }
  }

  lemma SilenceKeeps(c: Cfg, w: Sys, rx: Rx, expired: bool)
    requires Setting(c) && Inv(c, w) && w.srv.stat == AckRx
    requires rx.Nothing? || (rx.Packet? && rx.from != c.client)
    requires rx.Packet? && w.srv.file.fail && Retriable(c, w.srv) ==> |Clip(rx.bytes)| <= 4
    ensures Inv(c, ServerStep(c, w, Ev(rx, expired), w.up))
  {
    hide Step, Overwrite, Linked, ClientFine, Clip, Loaded;
    NothingForUs(c, w.srv, rx, expired);
    var t := Step(c, w.srv, Ev(rx, expired));
    NewsOf(w.srv.sent, Ack(0), w.down);
    ClientIgnoresServer(c, w, t, w.up);
    LinkIgnoresServer(c, w, w.srv.stage, t);
    if Retriable(c, w.srv) {
      if rx.Packet? {
        ShortKeepsLoaded(c, w.srv, t, Clip(rx.bytes));
      } else {
        LoadedSame(c, w.srv, t);
      }
    }
  }

  lemma LoadedSame(c: Cfg, s: St, t: St)
    requires Setting(c) && Serving(c, s) && Loaded(c, s) && t.Fits()
    requires t.stage == s.stage && t.file == s.file && t.buf == s.buf
    ensures Loaded(c, t)
  {
  }

  /** A retransmission at stage 0 would read at a negative position. */
  predicate Derails(c: Cfg, s: St) {
    s.stat == Retransmit && s.stage == 0 && Retriable(c, s)
  }

  lemma RetryKeeps(c: Cfg, w: Sys, ev: Ev)
    requires Setting(c) && Inv(c, w) && w.srv.stat == Retransmit && !Derails(c, w.srv)
    ensures Inv(c, ServerStep(c, w, ev, w.up))
  {
    hide Encode, Overwrite, Linked, ClientFine, Loaded;
    var t := Step(c, w.srv, ev);
    NewsOf(w.srv.sent, Ack(0), w.down);
    ClientIgnoresServer(c, w, t, w.up);
    LinkIgnoresServer(c, w, w.srv.stage, t);
    if Retriable(c, w.srv) {
      LoadedSame(c, w.srv, t);
    }
  }

  lemma EndKeeps(c: Cfg, w: Sys, ev: Ev)
    requires Setting(c) && Inv(c, w) && (w.srv.stat == ErrorAndStop || w.srv.stat == Finish)
    ensures Inv(c, ServerStep(c, w, ev, w.up))
  {
    hide Encode, Overwrite, ClientFine;
    NewsOf(w.srv.sent, Ack(0), w.down);
    ClientIgnoresServer(c, w, Step(c, w.srv, ev), w.up);
  }

  /** The acknowledgement the session finds at the head of its channel. */
  lemma HeadOfUp(c: Cfg, w: Sys, s: nat)
    requires Setting(c) && First(c) <= s && Linked(c, w, s) && w.up != []
    ensures w.up[0] == AckOf(s) || (s > First(c) && w.up[0] == AckOf(s - 1))
    ensures w.up[0] == AckOf(s) ==> w.next == s + 1 && Phases(w.up[1..], AckOf(s), AckOf(s))
    ensures w.up[0] != AckOf(s) ==> Linked(c, w.(up := w.up[1..]), s)
  {
    hide Phases, Msg, AckOf;
    if w.next == s {
      PhasesTake(w.up, AckOf(s - 1), AckOf(s - 1));
      MsgsDiffer(c, s);
    } else {
      PhasesTake(w.up, AckOf(if s == First(c) then s else s - 1), AckOf(s));
    }
  }

  /** The acknowledgement of the current block. */
  lemma NewAckKeeps(c: Cfg, w: Sys, expired: bool)
    requires Setting(c) && Inv(c, w) && w.srv.stat == AckRx && w.up != [] && w.up[0] == AckOf(w.srv.stage)
    ensures var t := ServerStep(c, w, FromClient(c, w.up[0], expired), w.up[1..]);
            && Inv(c, t) && w.next == w.srv.stage + 1
            && t.srv.stat == (if w.srv.stage == FinalBlock(c, File(c)) then Finish else DataTx)
            && !t.srv.WasError()
  {
    hide Step, Phases, Prefix, Block, Accepts, RxStage, Msg, ClientFine;
    var s := w.srv.stage;
    HeadOfUp(c, w, s);
    NeighbourNumbers(s);
    TakesAck(c, w.srv, Num(s), expired);
    var t := Step(c, w.srv, FromClient(c, w.up[0], expired));
    NewsOf(w.srv.sent, Ack(0), w.down);
    ClientIgnoresServer(c, w, t, w.up[1..]);
  }

  /** The acknowledgement before it once more: it makes the session send the block
      again, ends it early at the last block, or, across a wrap of the numbers,
      breaks it off. */
  lemma OldAckKeeps(c: Cfg, w: Sys, expired: bool)
    requires Setting(c) && Inv(c, w) && w.srv.stat == AckRx && w.up != []
    requires w.srv.stage > First(c) && w.up[0] == AckOf(w.srv.stage - 1)
    ensures var t := ServerStep(c, w, FromClient(c, w.up[0], expired), w.up[1..]);
            && Inv(c, t)
            && t.srv.stat == (if w.srv.stage == FinalBlock(c, File(c)) || Num(w.srv.stage) == 0 then Finish else DataTx)
            && (t.srv.WasError() <==> Num(w.srv.stage) == 0)
  {
    hide Step, Phases, Prefix, Block, Accepts, RxStage, Msg, ClientFine, Linked;
    var s := w.srv.stage;
    HeadOfUp(c, w, s);
    MsgsDiffer(c, s);
    NeighbourNumbers(s);
    TakesAck(c, w.srv, Num(s - 1), expired);
    var t := Step(c, w.srv, FromClient(c, w.up[0], expired));
    NewsOf(w.srv.sent, Ack(0), w.down);
    ClientIgnoresServer(c, w, t, w.up[1..]);
    LinkIgnoresServer(c, w.(up := w.up[1..]), s, t);
  }

  lemma DeliveryKeeps(c: Cfg, w: Sys, expired: bool)
    requires Setting(c) && Inv(c, w) && w.srv.stat == AckRx && w.up != []
    ensures Inv(c, ServerStep(c, w, FromClient(c, w.up[0], expired), w.up[1..]))
  {
    hide ServerStep, ClientFine, Linked, AckOf, Loaded;
    HeadOfUp(c, w, w.srv.stage);
    if w.up[0] == AckOf(w.srv.stage) {
      NewAckKeeps(c, w, expired);
    } else {
      OldAckKeeps(c, w, expired);
    }
  }

  /** The two things that break a read: a retransmission at stage 0, and a strange
      packet that overwrites a block that can still be sent again when the stream can
      no longer refill the buffer. */
  ghost predicate Breaks(c: Cfg, w: Sys, ev: Event) {
    || (Derails(c, w.srv) && (ev.Server? || (ev.Stranger? && ev.from != c.client)))
    || (&& ev.Stranger? && ev.from != c.client && w.srv.stat == AckRx && w.srv.file.fail
        && Retriable(c, w.srv) && |Clip(ev.bytes)| > 4)
  }

  lemma PeerKeeps(c: Cfg, w: Sys, ev: Event)
    requires Setting(c) && Inv(c, w) && !ev.Server? && !ev.Stranger?
    ensures Inv(c, Next(c, w, ev))
  {
    hide ClientFine, Linked, ClientStep, AckOf, Loaded;
    if w.srv.stat == NeedInit || w.srv.stat == AckOptions {
      NobodyYet(c, w, ev);
    } else {
      ClientMoves(c, w, ev);
      if w.srv.stat == AckRx || w.srv.stat == Retransmit || w.srv.stat == DataTx {
        LinkMoves(c, w, ev);
      }
    }
  }

  lemma NobodyYet(c: Cfg, w: Sys, ev: Event)
    requires Setting(c) && w.srv.Fits() && !ev.Server? && !ev.Stranger?
    requires w.next == First(c) && w.up == [] && w.down == []
    ensures Next(c, w, ev) == w
  {
  }

  lemma ClientMoves(c: Cfg, w: Sys, ev: Event)
    requires Setting(c) && ClientFine(c, w) && w.srv.Fits() && !ev.Server? && !ev.Stranger?
    ensures ClientFine(c, Next(c, w, ev)) && Next(c, w, ev).srv == w.srv
  {
    hide ClientFine, AckOf;
    match ev
    case ClientTakes(reack) => TakeKeepsClient(c, w, reack);
    case ClientResends =>
      if w.next > First(c) { ClientIgnoresServer(c, w, w.srv, w.up + [AckOf(w.next - 1)]); }
    case LoseUp(i) => ClientIgnoresServer(c, w, w.srv, Lose(w.up, i));
    case LoseDown(i) => NetworkKeepsClient(c, w, i);
    case TwiceUp(i) => ClientIgnoresServer(c, w, w.srv, Twice(w.up, i));
    case TwiceDown(i) => NetworkKeepsClient(c, w, i);
  }

  lemma LinkMoves(c: Cfg, w: Sys, ev: Event)
    requires Setting(c) && ClientFine(c, w) && w.srv.Fits() && !ev.Server? && !ev.Stranger?
    requires First(c) <= w.srv.stage <= FinalBlock(c, File(c)) && Linked(c, w, w.srv.stage)
    ensures Linked(c, Next(c, w, ev), w.srv.stage)
  {
    hide ClientFine, Linked, AckOf, ClientStep;
    match ev
    case ClientTakes(reack) => TakeKeeps(c, w, w.srv.stage, reack);
    case ClientResends => if w.next > First(c) { ResendKeepsLink(c, w, w.srv.stage); }
    case LoseUp(i) => NetworkKeepsLink(c, w, w.srv.stage, i);
    case LoseDown(i) => NetworkKeepsLink(c, w, w.srv.stage, i);
    case TwiceUp(i) => NetworkKeepsLink(c, w, w.srv.stage, i);
    case TwiceDown(i) => NetworkKeepsLink(c, w, w.srv.stage, i);
  }

  lemma NextKeeps(c: Cfg, w: Sys, ev: Event)
    requires Setting(c) && Inv(c, w) && !Breaks(c, w, ev)
    ensures Inv(c, Next(c, w, ev))
  {
    hide ServerStep, ClientFine, Linked, Loaded, Clip;
    if ev.Server? || (ev.Stranger? && ev.from != c.client) {
      var rx := if ev.Server? then Nothing else Packet(ev.from, ev.bytes);
      match w.srv.stat
      case NeedInit => StartKeeps(c, w, Ev(rx, ev.expired));
      case AckOptions => StartKeeps(c, w, Ev(rx, ev.expired));
      case DataTx => SendKeeps(c, w, Ev(rx, ev.expired));
      case AckRx =>
        if ev.Server? && ev.deliver && w.up != [] {
          DeliveryKeeps(c, w, ev.expired);
        } else {
          SilenceKeeps(c, w, rx, ev.expired);
        }
      case Retransmit => RetryKeeps(c, w, Ev(rx, ev.expired));
      case ErrorAndStop => EndKeeps(c, w, Ev(rx, ev.expired));
      case Finish => EndKeeps(c, w, Ev(rx, ev.expired));
    } else if !ev.Stranger? {
      PeerKeeps(c, w, ev);
    }
  }

  // ----------------------------------------------------------------- theorems

  /** No event of the run is one of the two that break a read. */
  ghost predicate Tame(c: Cfg, evs: seq<Event>)
    requires Setting(c)
  {
    evs == [] ||
    (Tame(c, evs[..|evs| - 1]) && !Breaks(c, Run(c, evs[..|evs| - 1]), evs[|evs| - 1]))
  }

  lemma InitInv(c: Cfg)
    requires Setting(c)
    ensures Inv(c, Init(c))
  {
  }

  lemma {:induction false} InvariantHolds(c: Cfg, evs: seq<Event>)
    requires Setting(c) && Tame(c, evs)
    ensures Inv(c, Run(c, evs))
  {
    hide Next, Inv, Breaks;
    if evs == [] {
      InitInv(c);
    } else {
      InvariantHolds(c, evs[..|evs| - 1]);
      NextKeeps(c, Run(c, evs[..|evs| - 1]), evs[|evs| - 1]);
    }
  }

  /** Safety of reads, for files of any length and across any number of wraps of the
      block numbers, with any timeouts and retransmissions: the client never holds
      anything but a prefix of the file, in whole blocks; a client that has met a
      short block holds the whole file; and only behind a wrap can the network break
      the session off. */
  lemma {:induction false} ReadSafety(c: Cfg, evs: seq<Event>)
    requires Setting(c) && Tame(c, evs)
    ensures var w := Run(c, evs);
            && w.got <= File(c)
            && w.got == Prefix(File(c), c.Blk(), if w.next == 0 then 0 else w.next - 1)
            && (w.done <==> w.next == FinalBlock(c, File(c)) + 1)
            && (w.done ==> w.got == File(c))
            && (w.srv.stat == DataTx || w.srv.stat == AckRx ==>
                  w.next == w.srv.stage || w.next == w.srv.stage + 1)
            && (w.srv.WasError() ==> w.srv.stat == Finish && WIRE <= w.srv.stage <= FinalBlock(c, File(c)))
  {
    hide RunFrom, Phases, Msg, Loaded;
    InvariantHolds(c, evs);
    WholeFile(File(c), c.Blk());
    assert Prefix(File(c), c.Blk(), 0) == [];
  }
}
